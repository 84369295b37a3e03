# Retail inventory dashboard: a verified model of its logic

The dashboard is a React application for a retail chain. Its screens hold a few pieces of
self-contained logic. This project models them in Dafny and proves what they promise:

- **Stock-transfer form** (`TransferForm`): a draft made of a source, a destination, an
  ordered list of lines `{productId, quantity}` and a product-picker search. The
  `TransferForm.TransferDraft` class has one method per handler: add a line, pick a product,
  update a quantity, remove a line, and create the transfer. Creating it runs the four ordered
  checks and resets the draft.
- **Inventory page** (`Inventory`): `getInventorySummaryByLocation` is modelled as a loop that
  folds the rows into a map keyed by location, followed by a loop that lists the map's values
  in key insertion order. The page's three headline figures (rows, units in stock, distinct
  locations) are proved to agree with the summary.
- **Product list** (`ProductList`): the case-insensitive search over name, SKU and category,
  delete-by-id (as a class whose `products` field the handler replaces), and the stock colour.
- **Product form** (`ProductForm`): the per-field rules of the product schema, the messages
  they report and the form's default values.
- **Product row** (`ProductRow`): the stock colour thresholds, the first-two-attributes rule
  and when the supplier line is shown.
- **Attribute field** (`AttributeField`): the `'true'`/`'false'` encoding of boolean
  attributes, the required-label suffix, the placeholders, the select-only options rule and
  the dispatch on the attribute type.
- **Users page** (`Users`): avatar initials, the role badge, the status badge and the avatar
  colour.
- **Home page** (`Dashboard`, from `Index.tsx`): the `cn` class-name joiner, the activity
  kind and status mappings, and the sales-bar width and colours.

Shared modules:

- `Wrappers` holds `Option`.
- `Seqs` holds the stable filter behind the product search, delete-by-id and the transfer picker's two lists. The `filter(Boolean)` of `cn` also unwraps the strings it keeps, so it is defined on its own (`Dashboard.Kept`).
- `Text` holds ASCII `toLowerCase`, `includes`, one-character `split` and `join`.

## Model

| member | source | states |
|---|---|---|
| Seqs.Filter | src/components/products/ProductList.tsx:90-98 | the result is no longer than the input; it holds exactly the input's elements the predicate accepts, each as often as in the input |
| Seqs.FilterIsSubsequence | src/components/products/ProductList.tsx:90 | a filter keeps the survivors in their original relative order |
| Seqs.FilterKeepsAllIff | src/components/products/ProductList.tsx:90-94 | a filter returns its input unchanged exactly when the predicate accepts every element |
| Seqs.FilterKeepsAll | src/components/products/ProductList.tsx:90-94 | a filter whose predicate accepts every element returns its input unchanged |
| Seqs.FilterIdempotent | src/components/products/ProductList.tsx:98 | filtering twice with one predicate equals filtering once |
| Seqs.FilterCommutes | src/components/products/ProductList.tsx:90-98 | two filters may be applied in either order |
| Seqs.FilterWeakerIsSupersequence | src/components/products/ProductList.tsx:90-94 | a filter with a weaker predicate keeps a supersequence |
| Seqs.FilterAgreeing | src/components/products/ProductList.tsx:90-94 | predicates that agree on every element give the same filter |
| Seqs.FilterAppend | src/pages/Users.tsx:206 | filtering a concatenation gives the concatenation of the two filters, so the words of two halves of a name line up |
| Text.Lower | src/components/transfers/TransferForm.tsx:82-83 | lower-casing keeps the length and maps every ASCII capital to its small letter, character by character |
| Text.LowerIdempotent | src/components/products/ProductList.tsx:91-93 | lower-casing a lower-cased string changes nothing |
| Text.LowerAppend | src/components/products/ProductList.tsx:91-93 | lower-casing distributes over concatenation |
| Text.Includes | src/components/products/ProductList.tsx:91-93 | `includes` holds exactly when the term occurs at some position of the string |
| Text.IncludesEmpty | src/components/products/ProductList.tsx:90-94 | the empty term occurs in every string |
| Text.IncludesPrefixOfTerm | src/components/products/ProductList.tsx:90-94 | a string that contains a term contains every prefix of it |
| Text.Join | src/pages/Index.tsx:191 | joining no pieces gives the empty string, and one piece gives that piece unchanged |
| Text.Split | src/pages/Users.tsx:206 | `split` gives at least one piece, and no piece contains the separator |
| Text.JoinSplit | src/pages/Users.tsx:206 | joining the pieces of a split with the separator gives back the string |
| Text.SplitJoin | src/pages/Users.tsx:206 | splitting a join of separator-free pieces gives back the pieces |
| Text.SplitConcat | src/pages/Users.tsx:206 | splitting at one occurrence of the separator splits the two sides apart: the pieces of `a + " " + b` are those of `a` followed by those of `b` |
| TransferForm.Message | src/components/transfers/TransferForm.tsx:111-127 | every failed check reports a non-empty message |
| TransferForm.TotalItemsAppend | src/components/transfers/TransferForm.tsx:73 | `TotalItems` sums the quantities from the first line to the last; the total of two drafts laid end to end is the sum of their totals |
| TransferForm.TotalItemsAtLeastLines | src/components/transfers/TransferForm.tsx:73 | with every quantity at least 1, the total is at least the number of lines |
| TransferForm.TotalItemsUpdate | src/components/transfers/TransferForm.tsx:73 | replacing one line changes the total by the difference of the two quantities |
| TransferForm.TotalItemsRemove | src/components/transfers/TransferForm.tsx:73 | removing one line lowers the total by that line's quantity |
| TransferForm.AvailableProducts | src/components/transfers/TransferForm.tsx:76-78 | exactly the catalogue products with no line in the draft, each as often as in the catalogue, in catalogue order |
| TransferForm.FilteredProducts | src/components/transfers/TransferForm.tsx:81-84 | exactly the available products whose lower-cased name or SKU contains the lower-cased term, each as often as before, in order; an empty term keeps all |
| TransferForm.PickedProductKeepsIdsDistinct | src/components/transfers/TransferForm.tsx:270-274 | adding a product picked from the list to a draft with distinct ids keeps the ids distinct |
| TransferForm.AddItemAcceptsDuplicate | src/components/transfers/TransferForm.tsx:87-92 | the add handler itself does not reject an id already in the draft |
| TransferForm.QuantityFromInput | src/components/transfers/TransferForm.tsx:348 | a parsed non-zero number is kept; zero or an unparsable entry becomes 1; the result is never 0 |
| TransferForm.FindProduct | src/components/transfers/TransferForm.tsx:152 | `None` exactly when no catalogue product has the id; otherwise a catalogue product with the id |
| TransferForm.FindProductIsFirst | src/components/transfers/TransferForm.tsx:152 | of several products with the id, the first one is found |
| TransferForm.MaxQuantity | src/components/transfers/TransferForm.tsx:346 | the quantity input's maximum is the product's available stock when the product is known and has some; it is 999 when the product is unknown or has none, and never 0 |
| TransferForm.SubmitCheck | src/components/transfers/TransferForm.tsx:109-129 | the four checks in order: each failure is reported exactly when the earlier checks pass and it fails; none is reported exactly when all four pass |
| TransferForm.SubmitEnabled | src/components/transfers/TransferForm.tsx:385 | the button is never disabled for a draft that passes every check; when it is enabled, "same location" is the only check that can still fail |
| TransferForm.EnabledSubmitFailsOnlyOnSameLocation | src/components/transfers/TransferForm.tsx:385 | with the button enabled, the only failure left is "same location", and it occurs exactly when source and destination are equal |
| TransferForm.TransferDraft.constructor | src/components/transfers/TransferForm.tsx:66-70 | a fresh draft has no locations, no lines, the picker closed and an empty search |
| TransferForm.TransferDraft.PickerList | src/components/transfers/TransferForm.tsx:76-84 | the picker lists only catalogue products that have no line in the draft |
| TransferForm.TransferDraft.AddItem | src/components/transfers/TransferForm.tsx:87-95 | one line with quantity 1 is appended and the earlier lines are untouched; the picker closes and the search clears; the total grows by 1 |
| TransferForm.TransferDraft.SelectProduct | src/components/transfers/TransferForm.tsx:270-274 | the picked product is appended with quantity 1, and distinct ids stay distinct |
| TransferForm.TransferDraft.UpdateQuantity | src/components/transfers/TransferForm.tsx:97-101 | only the quantity of the given line changes; the length, every other line and every product id are unchanged; the total moves by the difference |
| TransferForm.TransferDraft.EnterQuantity | src/components/transfers/TransferForm.tsx:348 | the line's quantity becomes the parsed number, or 1 for zero or an unparsable entry; it is never 0 |
| TransferForm.TransferDraft.RemoveItem | src/components/transfers/TransferForm.tsx:103-107 | the line at the index is removed and the later lines shift down in order; the total drops by its quantity; an index past the end changes nothing |
| TransferForm.TransferDraft.CreateTransfer | src/components/transfers/TransferForm.tsx:109-148 | the first failing check is returned and the state is unchanged; with no failure, both locations become empty and the lines are cleared |
| Inventory.TotalRowsIsLength | src/pages/Inventory.tsx:36 | `Total` sums a measure over the rows; counting one per row gives the number of rows |
| Inventory.LocationColumn | src/pages/Inventory.tsx:120 | the location column has one entry per row, each that row's location |
| Inventory.CountIsMultiplicity | src/pages/Inventory.tsx:36 | a location's row count is how often it occurs in the location column |
| Inventory.LocationsSpec | src/pages/Inventory.tsx:31-41 | `Locations`, the locations in the chart's order, are distinct, include every row's location and include only rows' locations |
| Inventory.LocationsFirstAppearance | src/pages/Inventory.tsx:32-41 | the locations are listed in order of first appearance: of two listed locations, the earlier one occurs in a row before any row holds the later one |
| Inventory.EntriesFor | src/pages/Inventory.tsx:34-37 | one entry per location, each with the number of rows and the units in stock at that location |
| Inventory.SummaryOf | src/pages/Inventory.tsx:31-41 | one entry per distinct location |
| Inventory.FoldByLocation | src/pages/Inventory.tsx:32-39 | after the fold, the map has a key exactly for every location seen, the keys in order of first appearance, and each entry counts that location's rows and sums their units |
| Inventory.SummarizeByLocation | src/pages/Inventory.tsx:31-42 | the summary is one entry per distinct location in order of first appearance, with that location's row count and unit total |
| Inventory.SummaryTotalsMatch | src/pages/Inventory.tsx:31-41 | the entries' counts add up to the number of rows, and their unit totals to the units in stock |
| Inventory.SummaryLengthIsLocationCount | src/pages/Inventory.tsx:120 | the summary has as many entries as there are distinct locations |
| Inventory.TotalProducts | src/pages/Inventory.tsx:84 | "Total Products" is the number of rows, or 0 without data |
| Inventory.InStockTotal | src/pages/Inventory.tsx:102 | "In Stock" is the units in stock summed over all rows, or 0 without data |
| Inventory.LocationCount | src/pages/Inventory.tsx:120 | "Locations", the size of `LocationSet`, is the number of distinct locations, or 0 without data |
| Inventory.PageSummary | src/pages/Inventory.tsx:63 | the chart shows nothing without data, and the location summary once rows are loaded |
| Inventory.PageFiguresAgree | src/pages/Inventory.tsx:63-120 | loaded or not, the chart has as many bars as "Locations", its counts add up to "Total Products" and its units to "In Stock" |
| Inventory.SummaryOfEmpty | src/pages/Inventory.tsx:31-42 | no rows give no entries |
| Inventory.AsWrittenFold | src/pages/Inventory.tsx:32-39 | the accumulator as written never holds an own entry for a name inherited from `Object.prototype` |
| Inventory.AsWrittenSummaryOf | src/pages/Inventory.tsx:41 | the summary as written has no entry for an inherited name |
| Inventory.AsWrittenDropsInheritedLocation | src/pages/Inventory.tsx:31-42 | one row at location "constructor": no bar as written, although the page counts one location and five units; the corrected summary has the bar |
| ProductList.FilterProducts | src/components/products/ProductList.tsx:90-94 | a product is kept exactly when the lower-cased term occurs in its lower-cased name, SKU or category, as often as in the list; order is kept; an empty term keeps all |
| ProductList.SearchIgnoresTermCase | src/components/products/ProductList.tsx:90-94 | searching for the lower-cased term gives the same list |
| ProductList.LongerTermNarrows | src/components/products/ProductList.tsx:90-94 | typing more characters keeps a subsequence of the previous result |
| ProductList.DeleteById | src/components/products/ProductList.tsx:97-98 | every product with the id goes; every other product stays, as often as before and in order |
| ProductList.DeleteAbsentIsIdentity | src/components/products/ProductList.tsx:98 | deleting leaves the list unchanged exactly when no product has the id |
| ProductList.DeleteIdempotent | src/components/products/ProductList.tsx:98 | deleting an id twice equals deleting it once |
| ProductList.DeleteCommutesWithSearch | src/components/products/ProductList.tsx:90-98 | deleting and searching may be done in either order |
| ProductList.StockCellColour | src/components/products/ProductList.tsx:167-170 | red exactly below 30, amber exactly from 30 to 49, green exactly from 50 |
| ProductList.ProductListState.constructor | src/components/products/ProductList.tsx:86-87 | the list starts with the given products and an empty search |
| ProductList.ProductListState.Visible | src/components/products/ProductList.tsx:90-94 | the visible rows are a subsequence of the products |
| ProductList.ProductListState.SetSearchTerm | src/components/products/ProductList.tsx:112 | the term is stored and the visible rows become the search over all products |
| ProductList.ProductListState.DeleteProduct | src/components/products/ProductList.tsx:97-98 | the products lose exactly the id's rows, and the visible rows lose exactly those too |
| ProductForm.IssueMessage | src/components/products/ProductForm.tsx:23-27 | every rule reports a non-empty message |
| ProductForm.IssueMessageInjective | src/components/products/ProductForm.tsx:23-27 | different fields report different messages |
| ProductForm.Validate | src/components/products/ProductForm.tsx:22-29 | a field is reported exactly when its rule (`FieldValid`: two characters or more for name, SKU and category, strictly positive for price and cost) fails; the form passes exactly when every rule holds |
| ProductForm.ValidateInSchemaOrder | src/components/products/ProductForm.tsx:22-29 | the reported fields are the schema's fields filtered by their rules, so each is reported once and in schema order |
| ProductForm.FieldRuleIsLocal | src/components/products/ProductForm.tsx:22-29 | a field's verdict depends on that field's value alone |
| ProductForm.SupplierIsFree | src/components/products/ProductForm.tsx:28 | the supplier, absent or any string, never changes the verdict |
| ProductForm.ZeroAmountRejected | src/components/products/ProductForm.tsx:26-27 | a price or cost of 0 is reported |
| ProductForm.DefaultValuesRejected | src/components/products/ProductForm.tsx:43-50 | the default values fail on all five ruled fields, in schema order |
| ProductRow.ColourClass | src/components/products/ProductRow.tsx:58-59 | every colour class is a `text-` class |
| ProductRow.ColourClassInjective | src/components/products/ProductRow.tsx:58-59 | different colours have different classes |
| ProductRow.StockColourOf | src/components/products/ProductRow.tsx:56-59 | red exactly below 30, amber exactly from 30 to 49, green exactly from 50 or when the figure is absent |
| ProductRow.StockColourMonotone | src/components/products/ProductRow.tsx:56-59 | more stock never shows a worse colour |
| ProductRow.AttributeEntries | src/components/products/ProductRow.tsx:26 | at most two entries, a prefix of the attribute entries; none without an attribute map |
| ProductRow.ShowsBadgesIff | src/components/products/ProductRow.tsx:26-38 | badges (`ShowsBadges`) appear exactly when the attribute map exists and is non-empty |
| ProductRow.ShowsSupplier | src/components/products/ProductRow.tsx:33 | the supplier line is shown exactly when the supplier is present and non-empty |
| AttributeField.EncodeBool | src/components/products/AttributeField.tsx:99-101 | a toggle stores "true" or "false" |
| AttributeField.DecodeEncode | src/components/products/AttributeField.tsx:98-101 | storing a toggle and reading it back with `DecodeBool`, which checks the box exactly on "true", gives the toggle |
| AttributeField.EncodeDecode | src/components/products/AttributeField.tsx:98-101 | a stored value survives a read and a re-write exactly when it is "true" or "false"; any other value reads unchecked and is rewritten as "false" |
| AttributeField.Label | src/components/products/AttributeField.tsx:51 | the label starts with the name and is 2 longer, ending in " *", exactly when the attribute is required |
| AttributeField.LabelDistinguishesRequired | src/components/products/AttributeField.tsx:73 | the same name with different required flags gives different labels |
| AttributeField.Placeholder | src/components/products/AttributeField.tsx:55 | "Enter " plus the lower-cased name for text and number, "Select " plus it for select, none otherwise |
| AttributeField.PlaceholderIgnoresCase | src/components/products/AttributeField.tsx:78 | the placeholder ignores the case of the name |
| AttributeField.Options | src/components/products/AttributeField.tsx:19-39 | no options for a non-select type, while loading or after an error; for a select attribute with an answered query, the options are exactly the rows it returned, or none when it returned no rows |
| AttributeField.Choices | src/components/products/AttributeField.tsx:130-134 | one choice per option, its value, in order |
| AttributeField.Render | src/components/products/AttributeField.tsx:43-145 | nothing exactly for an unknown type; otherwise the label; a plain text input exactly for text, a number input exactly for number, a checkbox exactly for boolean, checked as decoded, and a select exactly for select, with the options' values; the placeholder for text, number and select |
| AttributeField.UnknownTypeRendersNothing | src/components/products/AttributeField.tsx:143-144 | only the four known types render an input |
| AttributeField.ToggleRoundTrip | src/components/products/AttributeField.tsx:97-101 | toggling a boolean attribute and rendering again shows the checkbox in the toggled state |
| AttributeField.ChoicesOnlyForSelect | src/components/products/AttributeField.tsx:119-134 | a non-select attribute never shows choices, whatever the query answered |
| Users.Heads | src/pages/Users.tsx:206 | at most one initial per part, exactly one when no part is empty; each initial is the first character of a non-empty part |
| Users.HeadsSkipEmpty | src/pages/Users.tsx:206 | empty parts contribute nothing: the initials of the parts are those of their non-empty parts |
| Users.HeadsOfWords | src/pages/Users.tsx:206 | one initial per non-empty part, the k-th being the first character of the k-th non-empty part |
| Users.HeadsOfNonEmpty | src/pages/Users.tsx:206 | with no empty part, the k-th initial is the first character of the k-th part |
| Users.Initials | src/pages/Users.tsx:206 | one initial per word of the name (`Words`: the non-empty parts of its split at single spaces), the k-th being the first character of the k-th word; no initial is a space |
| Users.SameWordsSameInitials | src/pages/Users.tsx:206 | names with the same words have the same initials |
| Users.WordsOfEmpty | src/pages/Users.tsx:206 | the empty name has no words, hence no initials |
| Users.WordsAroundSpace | src/pages/Users.tsx:206 | the words of `a + " " + b` are the words of `a` followed by the words of `b` |
| Users.InitialsOfWords | src/pages/Users.tsx:206 | a name of words joined by single spaces has one initial per word, that word's first letter, in order |
| Users.ExtraSpaceAddsNoInitial | src/pages/Users.tsx:206 | doubling any space of a name, anywhere in it, changes no initial |
| Users.SpaceAtEdgeAddsNoInitial | src/pages/Users.tsx:206 | a space inserted at the start, at the end, or next to another space changes no initial |
| Users.SpaceAtEdgeAddsNoWord | src/pages/Users.tsx:206 | a space inserted at the start, at the end, or next to another space changes no word |
| Users.SpaceAtEndAddsNoWord | src/pages/Users.tsx:206 | a leading or trailing space adds no word |
| Users.SpaceAfterSpaceAddsNoWord | src/pages/Users.tsx:206 | a space right after another space adds no word |
| Users.TierOf | src/pages/Users.tsx:79-94 | `super_admin` and `admin` are their own tiers; every other role is an ordinary user |
| Users.RoleBadge | src/pages/Users.tsx:78-101 | "Super Admin" exactly for `super_admin`, "Admin" exactly for `admin`, "User" exactly for every other role; the badge is `BadgeOfTier` of the role's tier |
| Users.AvatarMatchesBadge | src/pages/Users.tsx:201-205 | two roles get the same avatar colour (`AvatarClasses`) exactly when they get the same badge |
| Users.AvatarAndBadgeShareColour | src/pages/Users.tsx:201-205 | the avatar and the badge of a role both carry the tier's text colour (`TierTextColour`) |
| Users.StatusBadge | src/pages/Users.tsx:104-126 | a badge exactly for `active`, `inactive` and `pending`; none for any other status |
| Users.StatusBadgeNamesStatus | src/pages/Users.tsx:104-126 | a badge's text is its status with the first letter capitalised |
| Users.StatusBadgesDiffer | src/pages/Users.tsx:104-126 | different statuses never share a badge text |
| Dashboard.KeptMembers | src/pages/Index.tsx:190-191 | `Kept`, the `filter(Boolean)` with the strings unwrapped, keeps a string exactly when it is a non-empty string argument |
| Dashboard.KeptShape | src/pages/Index.tsx:190-191 | kept strings are non-empty, no more than the arguments, and none exactly when every argument is falsy |
| Dashboard.KeptAppend | src/pages/Index.tsx:191 | keeping distributes over concatenated argument lists, so argument order is kept |
| Dashboard.KeptIgnoresFalsy | src/pages/Index.tsx:191 | a falsy argument anywhere is dropped |
| Dashboard.Cn | src/pages/Index.tsx:190-191 | the result is empty exactly when every argument is falsy |
| Dashboard.CnIgnoresFalsy | src/pages/Index.tsx:191 | a falsy argument anywhere changes nothing |
| Dashboard.CnOfTwo | src/pages/Index.tsx:191 | two non-empty strings are joined with a single space |
| Dashboard.CnSplitsBack | src/pages/Index.tsx:191 | when the classes contain no spaces, splitting the result at spaces gives back the kept classes in order |
| Dashboard.KindOf | src/pages/Index.tsx:91-101 | `transfer` and `restock` are their own kinds; every other type is grouped together |
| Dashboard.KindDecidesIconAndColour | src/pages/Index.tsx:89-101 | two activities get the same icon (`KindIcon`), and the same colour classes (`KindClasses`), exactly when they are of the same kind |
| Dashboard.StatusLabel | src/pages/Index.tsx:118 | "Completed" exactly for `completed`, "In Progress" exactly for anything else |
| Dashboard.StatusColour | src/pages/Index.tsx:113-117 | green exactly for `completed` |
| Dashboard.StatusColourMatchesLabel | src/pages/Index.tsx:113-118 | a green badge says "Completed" and only a green one does |
| Dashboard.BarWidth | src/pages/Index.tsx:165 | the width determines the percentage: (width - 40) / 4 gives it back |
| Dashboard.BarWidthOrder | src/pages/Index.tsx:165 | a larger change gives a strictly wider bar and back; the bar fits its track (40 to 100) exactly for changes of 0 to 15 percent |
| Dashboard.TrendStyleOf | src/pages/Index.tsx:140-150 | "+" exactly for the `up` trend, "-" for every other |
| Dashboard.TrendStyleAgrees | src/pages/Index.tsx:140-164 | the bar and the text are green exactly when the sign is "+" |

## Left out

- Remote I/O is not modelled: the product insert, its mutation callbacks and the attribute-options query. The options query appears only as its outcome (`AttributeField.FetchOutcome`), and the server-side ordering by `display_order` is taken as given.
- The one-second delay of `fetchInventoryData`, the delayed packing-list toast, all toasts and all rendering are not modelled. A failed check of "Create Transfer" is returned as its `TransferError`, with the message given by `TransferForm.Message`.
- The mock arrays are not modelled: the catalogue is a constructor parameter of `TransferForm.TransferDraft`, and the rows and products are parameters.
- `toLowerCase` is modelled on ASCII letters only, with no Unicode case folding. Strings are sequences of characters, not UTF-16 code units.
- Users.Initials: a character outside the basic multilingual plane is one character here, where JavaScript's `n[0]` takes half of a surrogate pair.
- Prices, costs and bar percentages are mathematical reals. `toFixed(2)`, `toLocaleString` and floating-point rounding are not modelled.
- ProductForm.Validate: zod coerces the amount inputs to numbers before checking them. Coercion, `NaN` and infinities are not modelled, so price and cost arrive as reals.
- ProductForm.Validate reports the failing fields in schema order. The message of each is `ProductForm.IssueMessage`, rather than a full zod error object.
- Inventory.SummarizeByLocation lists locations in order of first appearance. JavaScript's `Object.values` puts keys that look like array indices ("1", "42") first, in numeric order, and that ordering is not modelled.
- TransferForm.TransferDraft.UpdateQuantity treats lines as values. The source's shallow copy assigns into the line object shared with the previous state; since the whole list is replaced right after, the visible result is the same.
- TransferForm.TransferDraft.UpdateQuantity requires an index inside the draft, where the source would throw a `TypeError`. The input handler only ever passes the index of a rendered line.
- Dashboard.BarWidth: a width over 100 percent is clipped by the surrounding CSS, which is not modelled.
- The transfer form has no duplicate-rejection message, and the product list has no category toggle. Neither feature is modelled, since neither is in the code.
- The theme switch, the sidebar state and the purely presentational pages and components are not modelled.

## Findings

| source | as written | input that shows it | evidently intended | confidence | as-written member | corrected member |
|---|---|---|---|---|---|---|
| src/pages/Inventory.tsx:31-42 | the accumulator starts as a plain `{}` and tests `!acc[item.location]`. A location named like an `Object.prototype` member finds the inherited, truthy member, so it never gets an own entry, and `Object.values` leaves it out | one row `{inStock: 5, location: "constructor"}`: "Locations" shows 1 and "In Stock" shows 5, but the chart has no bar | one entry per distinct location, whatever its name (an accumulator with no prototype, or a `Map`) | high, not executed | Inventory.AsWrittenDropsInheritedLocation | Inventory.SummarizeByLocation |
