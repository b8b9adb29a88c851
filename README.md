# Hair props and product actions — a Dafny model

This project models the core of a Medusa store for hair products. It covers
five pieces of that code:

- **Admin list route** (`GET`/`POST /admin/hair-props`). It validates and
  coerces the list query (`page`, `deleted`). It turns a page number into a
  `skip`/`take` window of 20 rows and computes `last_page`. It parses and
  validates the body that creates a product length.
- **Admin "Product Lengths" page.** It keeps the current page and the "show
  deleted" switch in the URL's search parameters. It builds the list URL,
  drives the table's pagination, offers Restore or Delete per row, and says
  which queries a delete or restore refreshes.
- **Product hair-props widget.** It merges the product's missing
  product-length names with the known product-length records into one list
  sorted by name. It derives the id of each "add cap size" form from a slug
  of the cap-size name. It validates that form, says which queries creating
  a cap size refreshes, and chooses what the widget body shows.
- **Storefront header.** It flattens the country options of every region and
  sorts them by label.
- **Storefront product actions.**
  - Turns a variant's options into a keymap and matches the shopper's
    selection against the variants.
  - Decides stock and the add-to-cart button's state and text.
  - Sorts the product's options in place so that Material, Color and Size
    come first.
  - Decides which option pickers are shown.
  - Holds the component's state (selection, quantity, busy flag) and its
    handlers.

Modules: `Wrappers` (Option/Result), `JsValues` (the JavaScript number and
string conversions the code relies on), `StableSort` (`Array.prototype.sort`
with a `localeCompare` comparator), `HairPropsModels` (the two records),
`HairPropsRoute`, `HairPropsPage`, `ProductHairPropsWidget`, `Header` and
`ProductActions`.

Conventions used throughout:

- `localeCompare` is a parameter `le`, read as `localeCompare(a, b) <= 0`.
  The sortedness lemmas assume only that it is a total preorder. Because
  `sort` is stable since ECMAScript 2019, that fixes the result of each sort.
- JavaScript numbers used as pages are integers or `NaN`. `Number(s)` is
  modelled for the empty string (0) and an optional sign followed by
  decimal digits. Every other string is `NaN`.
- `URLSearchParams` and query objects are maps from name to value.
- The service calls (`listAndCountProductLengths`, `createProductLength`),
  `new Date()` and `JSON.parse` are function parameters of the handlers.
  `addToCart` is the request that `HandleAddToCart` returns.

Four places where the code does not do what the surrounding system
expects. The model follows the code as written in all four:

- The list handler answers with the key `productLengths`
  (medusa/src/api/admin/hair-props/route.ts:34), but the page reads
  `product_lengths` (medusa/src/admin/routes/hair-props/page.tsx:177).
- The list handler asks for the relation `colors`
  (medusa/src/api/admin/hair-props/route.ts:28), while product lengths
  declare `capSizes`.
- The widget's "Create product length" button goes through the create
  hook. That hook posts `{name}` to `/admin/hair-props/product-lengths`
  (medusa/src/admin/hooks/hair-props.ts:27-29), not to the list route's
  `POST /admin/hair-props`. Among the routes shown, that path reaches the
  per-length `POST` with the id `product-lengths`
  (medusa/src/api/admin/hair-props/[id]/route.ts:25-37). That handler
  updates a product length and creates nothing. The model states the body
  the button sends (`ProductHairPropsWidget.CreateLengthBody`). It does
  not connect the button to either handler.
- A page read from the URL can be negative. For example `?page=-3` reads as
  -3, because only 0 and `NaN` fall back to 1. The page then builds
  `?page=-3`, which the list route rejects. `HairPropsPage.ListUrlParsesBack`
  states both halves.

## Model

| member | source | states |
|---|---|---|
| JsValues.NumberOf | medusa/src/admin/routes/hair-props/page.tsx:136 | `Number(s)` is a number iff `s` is empty, all digits, or a sign followed by one or more digits; the value is 0 for "" and the digits' value with the sign applied otherwise; anything else is NaN |
| JsValues.NumberOfNullable | medusa/src/admin/routes/hair-props/page.tsx:136 | `Number(null)` is 0, otherwise as `Number(s)` |
| JsValues.Digits | medusa/src/admin/routes/hair-props/page.tsx:141 | the decimal digits of a natural number: non-empty, digits only, no leading zero |
| JsValues.IntToString | medusa/src/admin/routes/hair-props/page.tsx:141 | `page.toString()`: starts with '-' exactly for negative numbers, otherwise only digits |
| JsValues.DigitsRoundTrip | medusa/src/admin/routes/hair-props/page.tsx:136-141 | reading back the digits of `n` gives `n` |
| JsValues.NumberOfIntToString | medusa/src/admin/routes/hair-props/page.tsx:136-141 | `Number(n.toString()) == n` for every integer |
| StableSort.Insert | storefront/src/components/Header.tsx:23 | one stable insertion step keeps every element and adds `x` once |
| StableSort.Sort | storefront/src/components/Header.tsx:23 | the sort is a permutation of its input |
| StableSort.AppendSorted | storefront/src/components/Header.tsx:23 | appending a maximal element keeps a sequence sorted |
| StableSort.InsertSorted | storefront/src/components/Header.tsx:23 | inserting into a sorted sequence keeps it sorted, when `le` is a total preorder |
| StableSort.SortSorted | storefront/src/components/Header.tsx:23 | the sort's result is in `le` order of the key |
| Header.RegionOptions | storefront/src/components/Header.tsx:16-20 | one option per country of the region, in order, carrying iso_2, the region id and display_name; none when `countries` is missing |
| Header.Flatten | storefront/src/components/Header.tsx:14-22 | the flattened list has one entry per country across all regions |
| Header.FlattenMembers | storefront/src/components/Header.tsx:14-22 | an option is in the flattened list iff it is the option of some (region, country) pair |
| Header.CountryOptions | storefront/src/components/Header.tsx:14-23 | the sorted options are a permutation of the flattened ones |
| Header.CountryOptionsSorted | storefront/src/components/Header.tsx:23 | the options are in ascending label order, a missing label comparing as "" |
| Header.CountryOptionsMembers | storefront/src/components/Header.tsx:14-23 | the options offered are exactly the options of all (region, country) pairs |
| Header.RegionWithoutCountries | storefront/src/components/Header.tsx:16 | a region without a `countries` list contributes nothing |
| HairPropsRoute.ParsePage | medusa/src/api/admin/hair-props/route.ts:7 | a missing page defaults to 1; the page is accepted iff `Number(value)` is a number of at least 1, and is then that number |
| HairPropsRoute.ParseDeleted | medusa/src/api/admin/hair-props/route.ts:8 | a missing flag is false; a present flag is `Boolean(value)`, true iff non-empty |
| HairPropsRoute.ParseListQuery | medusa/src/api/admin/hair-props/route.ts:6-12 | the query parses iff its page does; the parsed page is at least 1 and `deleted` is the coerced flag |
| HairPropsRoute.LastPage | medusa/src/api/admin/hair-props/route.ts:32 | `ceil(count / 20)`: the least page count whose pages hold all rows; 0 exactly when there are no rows |
| HairPropsRoute.ListRequestFor | medusa/src/api/admin/hair-props/route.ts:17-30 | the deleted filter is present iff `deleted`, and then is `deleted_at <= now`; `withDeleted` follows the flag; take is 20; the relations are `['colors']`; the skip/take window is exactly the page's window |
| HairPropsRoute.Get | medusa/src/api/admin/hair-props/route.ts:11-35 | an invalid query is rejected; otherwise status 200 with the service's rows and count, the parsed page and a last page that covers the count exactly |
| HairPropsRoute.FirstPageStartsAtZero | medusa/src/api/admin/hair-props/route.ts:25 | page 1 skips no rows |
| HairPropsRoute.WindowsAdjacent | medusa/src/api/admin/hair-props/route.ts:25-26 | each page's window starts where the previous one ends |
| HairPropsRoute.WindowOfRow | medusa/src/api/admin/hair-props/route.ts:25-26 | every row is in the window of exactly one page, `row / 20 + 1` |
| HairPropsRoute.RowsFitInLastPage | medusa/src/api/admin/hair-props/route.ts:25-32 | every row of `count` lies on a page from 1 to `last_page` |
| HairPropsRoute.PagesBeyondLastAreEmpty | medusa/src/api/admin/hair-props/route.ts:25-32 | a page after `last_page` skips past every row |
| HairPropsRoute.ValidateCreateBody | medusa/src/api/admin/hair-props/route.ts:37-39 | the body is accepted iff it is an object whose `name` is a non-empty string, and the input carries that name |
| HairPropsRoute.Decoded | medusa/src/api/admin/hair-props/route.ts:45 | a string body is decoded by `JSON.parse`, any other body is used as it is |
| HairPropsRoute.Post | medusa/src/api/admin/hair-props/route.ts:41-53 | a body that does not decode is rejected; otherwise it succeeds iff the decoded value validates, answering 201 with the record created from the decoded body's `name`; a validation failure is reported as such |
| HairPropsRoute.PostTextLikeObject | medusa/src/api/admin/hair-props/route.ts:45 | a body sent as JSON text is handled exactly like the value it decodes to |
| HairPropsRoute.PostNameBody | medusa/src/api/admin/hair-props/route.ts:37-52 | `{name}` creates a product length named `name` with status 201 iff `name` is non-empty |
| HairPropsPage.SearchParams.constructor | medusa/src/admin/routes/hair-props/page.tsx:135 | the parameters hold the given entries |
| HairPropsPage.SearchParams.Copy | medusa/src/admin/routes/hair-props/page.tsx:140 | `new URLSearchParams(prev)` has the same entries |
| HairPropsPage.SearchParams.Set | medusa/src/admin/routes/hair-props/page.tsx:141 | `set` replaces or adds one key and leaves the rest |
| HairPropsPage.SearchParams.Delete | medusa/src/admin/routes/hair-props/page.tsx:153 | `delete` removes one key and leaves the rest |
| HairPropsPage.CurrentPage | medusa/src/admin/routes/hair-props/page.tsx:136 | the page is never 0: `Number(page)` when that is truthy, else 1 |
| HairPropsPage.WithPage | medusa/src/admin/routes/hair-props/page.tsx:137-144 | after `setPage`, `page` holds the page's decimal text and every other key is unchanged |
| HairPropsPage.Toggled | medusa/src/admin/routes/hair-props/page.tsx:148-163 | `toggleDeleted` flips whether `deleted` is present (present means ""), always drops `page`, and leaves every other key |
| HairPropsPage.SetPage | medusa/src/admin/routes/hair-props/page.tsx:137-146 | a fresh parameter set whose entries are `WithPage` of the old ones |
| HairPropsPage.ToggleDeleted | medusa/src/admin/routes/hair-props/page.tsx:148-163 | a fresh parameter set whose entries are `Toggled` of the old ones |
| HairPropsPage.PageAfterSetPage | medusa/src/admin/routes/hair-props/page.tsx:136-141 | the page read back after `setPage(p)` is `p`, except that 0 reads as 1 |
| HairPropsPage.ToggleTwice | medusa/src/admin/routes/hair-props/page.tsx:147-163 | toggling twice restores the switch and returns to page 1; it restores the parameters apart from `page` when `deleted` was absent or "" |
| HairPropsPage.ListUrl | medusa/src/admin/routes/hair-props/page.tsx:169-171 | the list URL is the route path, `?`, and the page/deleted query |
| HairPropsPage.ListUrlFor | medusa/src/admin/routes/hair-props/page.tsx:169-171 | the URL fetched for the current parameters is the route path and `?`, and the route reads its query as the page shown and the switch's state when that page is at least 1, rejecting it otherwise |
| HairPropsPage.ListQueryStringParams | medusa/src/admin/routes/hair-props/page.tsx:170 | the query string decodes to `page` (and `deleted=true` when the switch is on) and nothing else |
| HairPropsPage.ListUrlParsesBack | medusa/src/admin/routes/hair-props/page.tsx:169-171 | the list route reads the page's URL as the same page and switch for pages from 1, and rejects pages below 1 |
| HairPropsPage.PaginationFor | medusa/src/admin/routes/hair-props/page.tsx:345-352 | previous is enabled iff page > 1, next iff page < `last_page ?? 1`; page size 20, index page - 1, page count `last_page`, or 1 without data; count the fetched count, 0 when it is missing or 0 |
| HairPropsPage.PreviousPage | medusa/src/admin/routes/hair-props/page.tsx:353 | `max(1, page - 1)`: one back, never below 1 |
| HairPropsPage.NextPage | medusa/src/admin/routes/hair-props/page.tsx:354 | `min(page + 1, last_page ?? 1)`: one forward, never past the page count |
| HairPropsPage.PreviousThenRead | medusa/src/admin/routes/hair-props/page.tsx:353 | after "previous" the URL reads back as the previous page, at least 1 |
| HairPropsPage.NextThenRead | medusa/src/admin/routes/hair-props/page.tsx:352-354 | after an enabled "next" the URL reads back as the following page |
| HairPropsPage.RowActionFor | medusa/src/admin/routes/hair-props/page.tsx:307-337 | a soft-deleted row offers Restore, any other row Delete |
| HairPropsPage.DeletedListingOffersRestore | medusa/src/admin/routes/hair-props/page.tsx:307 | a row that meets the "show deleted" filter (soft-deleted at or before the request time) offers Restore |
| HairPropsPage.DeleteOrRestoreRefreshesList | medusa/src/admin/routes/hair-props/page.tsx:51-54 | the invalidation after delete or restore selects the list's query for every page and switch |
| ProductHairPropsWidget.Spread | medusa/src/admin/widgets/product-hair-props.tsx:189-191 | the missing names come first, then the known records, each in order |
| ProductHairPropsWidget.SpreadMembers | medusa/src/admin/widgets/product-hair-props.tsx:189-191 | the spread holds every missing name and known record and nothing else |
| ProductHairPropsWidget.ProductLengthsData | medusa/src/admin/widgets/product-hair-props.tsx:189-197 | the merged list is a permutation of the spread |
| ProductHairPropsWidget.ProductLengthsDataMembers | medusa/src/admin/widgets/product-hair-props.tsx:189-197 | the merged list holds every missing name and known record and nothing else |
| ProductHairPropsWidget.ProductLengthsDataSorted | medusa/src/admin/widgets/product-hair-props.tsx:192-197 | the merged list is in ascending name order |
| ProductHairPropsWidget.LowerChar | medusa/src/admin/widgets/product-hair-props.tsx:135 | A-Z become a-z, KELVIN SIGN becomes `k`, LATIN CAPITAL LETTER I WITH DOT ABOVE becomes `i` and a combining dot, every other character is kept |
| ProductHairPropsWidget.LowerCase | medusa/src/admin/widgets/product-hair-props.tsx:135 | lower-casing maps each character by `LowerChar`, in order, and never shortens the name |
| ProductHairPropsWidget.LowerAscii | medusa/src/admin/widgets/product-hair-props.tsx:135 | the lower case of an ASCII character is no capital, and is a word character iff the character is |
| ProductHairPropsWidget.LowerCaseAscii | medusa/src/admin/widgets/product-hair-props.tsx:135 | lower-casing an ASCII name keeps its length and lower-cases each character in place |
| ProductHairPropsWidget.ReplaceNonWord | medusa/src/admin/widgets/product-hair-props.tsx:136 | each character outside `\w` becomes `-`, each word character is kept |
| ProductHairPropsWidget.Slug | medusa/src/admin/widgets/product-hair-props.tsx:134-136 | the slug is at least as long as the name |
| ProductHairPropsWidget.SlugOfAscii | medusa/src/admin/widgets/product-hair-props.tsx:134-136 | the slug of an ASCII name has its length; each capital becomes its small letter, each other word character is kept, every other character becomes `-` |
| ProductHairPropsWidget.LowerCaseHasNoCapitals | medusa/src/admin/widgets/product-hair-props.tsx:135 | no ASCII capital survives lower-casing |
| ProductHairPropsWidget.SlugChars | medusa/src/admin/widgets/product-hair-props.tsx:134-136 | a slug is made only of lower-case letters, digits, `_` and `-` |
| ProductHairPropsWidget.LowerCaseOfSlugChars | medusa/src/admin/widgets/product-hair-props.tsx:135 | a string of slug characters is its own lower case |
| ProductHairPropsWidget.SlugOfSlugChars | medusa/src/admin/widgets/product-hair-props.tsx:134-136 | a string of slug characters is its own slug |
| ProductHairPropsWidget.SlugIdempotent | medusa/src/admin/widgets/product-hair-props.tsx:134-136 | slugging twice is slugging once |
| ProductHairPropsWidget.AddCapSizeDrawer | medusa/src/admin/widgets/product-hair-props.tsx:130-154 | the submit button targets the drawer's own form, whose id is built from the length id and the name's slug; the form starts with the name |
| ProductHairPropsWidget.ValidateCapSizeForm | medusa/src/admin/widgets/product-hair-props.tsx:94-96 | the form is accepted iff the name is non-empty |
| ProductHairPropsWidget.AddCapSizeRefreshesWidget | medusa/src/admin/widgets/product-hair-props.tsx:107-111 | the widget's own invalidation predicate selects the widget's query for every product and does not select the list page's keys |
| ProductHairPropsWidget.Body | medusa/src/admin/widgets/product-hair-props.tsx:217-302 | Loading iff loading; the error text iff not loading and in error; the "no variants" message iff a successful query with data has no entries; the list, equal to the merged entries, iff a successful query with data has entries; otherwise "no details" |
| ProductHairPropsWidget.CreateLengthBody | medusa/src/admin/widgets/product-hair-props.tsx:252-256 | only a missing name has a create button, whose body is `{name}` |
| ProductActions.Keymap | storefront/src/modules/products/components/product-actions/index.tsx:36-45 | a keymap exists iff the variant has an options list |
| ProductActions.OptionsAsKeymap | storefront/src/modules/products/components/product-actions/index.tsx:36-45 | the reduction loop computes `Keymap` |
| ProductActions.KeymapLookup | storefront/src/modules/products/components/product-actions/index.tsx:39-44 | the keys are exactly the non-empty option ids present; each maps to the value of the last entry with that id |
| ProductActions.FindMatch | storefront/src/modules/products/components/product-actions/index.tsx:72-75 | a found variant is listed and matches the selection exactly; nothing found means no variant matches |
| ProductActions.FindMatchFirst | storefront/src/modules/products/components/product-actions/index.tsx:72-75 | the variant found is the first matching one |
| ProductActions.SelectedVariant | storefront/src/modules/products/components/product-actions/index.tsx:67-76 | nothing is selected without variants; a selected variant's keymap has exactly the selection's keys and values |
| ProductActions.FirstMatchWins | storefront/src/modules/products/components/product-actions/index.tsx:72-75 | among matching variants the first listed is selected |
| ProductActions.SingleVariantPreselected | storefront/src/modules/products/components/product-actions/index.tsx:59-76 | preselecting a single variant selects it, unless it has no options list |
| ProductActions.InStock | storefront/src/modules/products/components/product-actions/index.tsx:87-108 | in stock iff a variant is selected and it is unmanaged, back-orderable, or has a positive quantity |
| ProductActions.AddToCartDisabled | storefront/src/modules/products/components/product-actions/index.tsx:287 | the button is enabled iff a selected in-stock variant exists, the component is not disabled and nothing is being added |
| ProductActions.AddToCartLabel | storefront/src/modules/products/components/product-actions/index.tsx:291-295 | "Select variant" iff no variant, "Out of stock" iff selected but not in stock, "Add to cart" iff in stock |
| ProductActions.EnabledButtonReadsAddToCart | storefront/src/modules/products/components/product-actions/index.tsx:285-296 | an enabled button always reads "Add to cart" |
| ProductActions.Priority | storefront/src/modules/products/components/product-actions/index.tsx:127-136 | an option's priority is its title's index in Material, Color, Size, or 3 when not listed |
| ProductActions.SortByPriority | storefront/src/modules/products/components/product-actions/index.tsx:126-139 | sorting in place yields the stable priority order: sorted by priority, a permutation, equal priorities in input order |
| ProductActions.InsertAt | storefront/src/modules/products/components/product-actions/index.tsx:126-139 | one insertion pass extends the sorted prefix by one and keeps every priority group's order |
| ProductActions.SortedIsPriorityOrder | storefront/src/modules/products/components/product-actions/index.tsx:126-139 | options already sorted by priority are their own stable order |
| ProductActions.PriorityOrderPermutes | storefront/src/modules/products/components/product-actions/index.tsx:126-139 | the stable priority order is a permutation of the options |
| ProductActions.PriorityOrderSorted | storefront/src/modules/products/components/product-actions/index.tsx:126-139 | the stable priority order is sorted by priority |
| ProductActions.FindByTitle | storefront/src/modules/products/components/product-actions/index.tsx:141-142 | finds an option with that exact title, or none exists |
| ProductActions.FindByTitleFirst | storefront/src/modules/products/components/product-actions/index.tsx:141-142 | the option found is the first with that title |
| ProductActions.WithoutIds | storefront/src/modules/products/components/product-actions/index.tsx:145-147 | keeps exactly the options whose id is neither of the two; a single option is kept or dropped |
| ProductActions.WithoutIdsAppend | storefront/src/modules/products/components/product-actions/index.tsx:145-147 | the filter of a concatenation is the concatenation of the filters, so order and repeats are kept |
| ProductActions.OtherOptions | storefront/src/modules/products/components/product-actions/index.tsx:143-148 | with both a Material and a Color option, the ordered options filtered by those two ids; otherwise all options |
| ProductActions.FindMaterial | storefront/src/modules/products/components/product-actions/index.tsx:152 | finds a material with that exact name, or none exists |
| ProductActions.FindMaterialFirst | storefront/src/modules/products/components/product-actions/index.tsx:152 | the material found is the first with that name |
| ProductActions.SelectedMaterial | storefront/src/modules/products/components/product-actions/index.tsx:150-153 | a material is selected iff a Material option has a non-empty chosen value naming a known material, and it is that material |
| ProductActions.SelectedMaterialFirst | storefront/src/modules/products/components/product-actions/index.tsx:150-153 | of several materials with the chosen name, the first listed is selected |
| ProductActions.ShowOtherOptions | storefront/src/modules/products/components/product-actions/index.tsx:155-159 | other options are shown without Material or Color; otherwise iff a material is selected and it has fewer than two colours or a colour is chosen |
| ProductActions.OtherOptionsWaitForMaterial | storefront/src/modules/products/components/product-actions/index.tsx:155-159 | with Material and Color options, nothing else shows before a material is chosen |
| ProductActions.ChoosingColourRevealsOtherOptions | storefront/src/modules/products/components/product-actions/index.tsx:155-159 | once a known material is chosen, choosing a colour reveals the other options, which a two-colour material hides until then |
| ProductActions.NonEmptyValues | storefront/src/modules/products/components/product-actions/index.tsx:261 | keeps exactly the values that are non-empty; a single value is kept or dropped |
| ProductActions.NonEmptyValuesAppend | storefront/src/modules/products/components/product-actions/index.tsx:261 | the filter of a concatenation is the concatenation of the filters, so the values keep their order |
| ProductActions.OfferedValues | storefront/src/modules/products/components/product-actions/index.tsx:260-261 | a picker offers the option's values filtered to the non-empty ones, none when it has no values list |
| ProductActions.Ids | storefront/src/modules/products/components/product-actions/index.tsx:234 | the ids of the options, position by position |
| ProductActions.DedicatedPickers | storefront/src/modules/products/components/product-actions/index.tsx:169-232 | no material or colour picker unless both options exist; then the material picker, followed by the colour picker once a material is selected |
| ProductActions.OtherPickers | storefront/src/modules/products/components/product-actions/index.tsx:233-275 | the other options' pickers, in option order, exactly when they are shown; never the Material or Color option |
| ProductActions.VisiblePickers | storefront/src/modules/products/components/product-actions/index.tsx:167-233 | no pickers for a single variant. Otherwise exactly the dedicated pickers followed by the other pickers, each picker once: without a Material/Color pair, one picker per option in order; with both, the material picker first and the colour picker iff a material is selected; the other options' pickers last, in order, when shown; at most two pickers when they are hidden |
| ProductActions.ProductActionsState.constructor | storefront/src/modules/products/components/product-actions/index.tsx:54-57 | starts with an empty selection, quantity 1 and not adding |
| ProductActions.ProductActionsState.PreselectSingleVariant | storefront/src/modules/products/components/product-actions/index.tsx:60-65 | with one variant, the selection becomes its keymap, or `{}` when it has no options list; the variant is then selected exactly when it has an options list (`{}` matches no variant); with any other number of variants nothing changes |
| ProductActions.ProductActionsState.SetOptionValue | storefront/src/modules/products/components/product-actions/index.tsx:79-84 | sets one option's value and keeps every other chosen value |
| ProductActions.ProductActionsState.SetQuantity | storefront/src/modules/products/components/product-actions/index.tsx:281 | the quantity becomes the new value |
| ProductActions.ProductActionsState.HandleAddToCart | storefront/src/modules/products/components/product-actions/index.tsx:111-123 | nothing happens without a selected variant id; otherwise it requests that variant in the current quantity and country, and the busy flag is cleared iff `addToCart` succeeded, so a failure leaves the button disabled |

Definitions that name a source expression and carry no contract of their
own. The lemmas in the table state what they mean:

- `HairPropsRoute.Skip`: `20 * (page - 1)` (medusa/src/api/admin/hair-props/route.ts:25).
- `HairPropsPage.ShowsDeleted`: `searchParams.has('deleted')` (medusa/src/admin/routes/hair-props/page.tsx:147).
- `HairPropsPage.PageCount`: `data?.last_page ?? 1` (medusa/src/admin/routes/hair-props/page.tsx:350).
- `HairPropsPage.ListQueryKey`: the list's key `['hair-props', deleted, page]` (medusa/src/admin/routes/hair-props/page.tsx:167).
- `HairPropsPage.InvalidatedByDeleteOrRestore`: the predicate run after a delete or restore (medusa/src/admin/routes/hair-props/page.tsx:52-53 and 101-102).
- `ProductHairPropsWidget.EntryName`: the sort key of an entry (medusa/src/admin/widgets/product-hair-props.tsx:193-194).
- `ProductHairPropsWidget.InvalidatedByAddCapSize`: the widget's predicate (medusa/src/admin/widgets/product-hair-props.tsx:108-111).

## Left out

- `Number` of decimals, exponents, hexadecimal (`0x`), binary (`0b`) and octal (`0o`) prefixes, `Infinity` and surrounding white space is not modelled. Those strings read as `NaN` here, where JavaScript gives a number (`Number("0b11")` is 3, `Number("0o17")` is 15).
- Numbers are unbounded integers. Rounding of integers beyond 2^53 is not modelled. Neither is `toString`'s exponent form for magnitudes of 1e21 and above: there JavaScript writes `1e+21`, where `IntToString` writes only digits.
- URL decoding of query values, repeated keys and key order in `URLSearchParams` and `req.query` are not modelled. Query values with `&` or `=` are not handled beyond a simple split.
- Lower-casing covers ASCII, KELVIN SIGN and LATIN CAPITAL LETTER I WITH DOT ABOVE, the only characters whose lower case the slug can tell apart. A character outside the Basic Multilingual Plane is one character here. JavaScript sees it as two UTF-16 units, so its slug has two `-` where the model has one.
- `localeCompare`'s collation is not modelled; it is the parameter `le`.
- StableSort.Sort: stability (equal keys keep input order) is built into the definition but not stated as a separate property.
- Awaiting and concurrency are not modelled. `HandleAddToCart` is one atomic step whose `addToCart` outcome is a parameter, and nothing else changes the state while `addToCart` runs.
- The create-cap-size and create-product-length hooks first run their own invalidation, which refetches every query whose key starts with `'hair-props'`, including the list page's (medusa/src/admin/hooks/hair-props.ts:34-37 and 67-70). Only then do they run the widget's callback. The hooks module is not part of this model; `AddCapSizeRefreshesWidget` is about the widget's predicate alone.
- React rendering, prompts, drawers, `isPending` spinners, refetch buttons and the pickers' `isDisabled` flag are not modelled. The view is reduced to the choices the code makes.
- The quantity field's `minValue={1}` is enforced by the number field component, which is not part of this model. `SetQuantity` accepts any integer.
- The service internals, `JSON.parse`, `new Date()` and `fetch` are left out as function parameters or inputs. The HTTP status of a zod failure is left out; the model returns the validation error.
- The endpoint that computes missing product lengths and cap sizes is not part of this model. Its response is an input of the widget.
- The edit drawer, the product-length detail page, the hooks module, the cap-size and restore routes and the seed script are not part of this model.
