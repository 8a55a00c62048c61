# Cash-flow entries: a Dafny model of the store, the listing query and the payload rules

The service keeps cash-flow entries (date, status, type, category,
subcategory, amount, optional comment) in one table and offers create,
read, partial update, delete and a filtered, paginated listing. This
project models the logic under the HTTP and SQL glue:

- `Schemas` (app/schemas.py): the closed `Status` and `Type` enumerations
  (`Kind` here, since `type` is a Dafny keyword), `strip_spaces` as `Strip`
  (Python's `str.strip()`, with Python's whitespace set), the field
  constraints of a create payload, and the sparse `EntryUpdate` payload. In
  `EntryUpdate` every field is an `Option` that defaults to unset. For
  `comment`, `Some(None)` means an explicit null.
  `Dump` models `model_dump(exclude_unset=True)`.
- `Models` (app/models.py): the row `Entry` (`id` plus the `EntryBase`
  fields, i.e. the fields of `EntryOut`), the column capacities
  and the `amount_non_negative` check constraint.
- `Deps` (app/deps.py): `pagination_params` as `Paginate` (bounds and
  defaults) and `FilterParams` with every criterion absent by default.
- `Crud` (app/crud.py): `list_entries` as the pure `ListEntries`: filter
  (`Select`), order by date descending, then id descending (`Sort`), then
  `LIMIT`/`OFFSET` (`Page`). The partial update is `ApplyUpdate`. The class
  `Store` holds a `map<int, Entry>` for the table and a counter for the
  next id. Its methods `Create`, `Update` and `Delete` model
  `create_entry`, `update_entry` and `delete_entry`. `Get` and `List`
  model `get_entry` and `list_entries` over the stored rows.
  `Overwrite` runs the source's `setattr` loop over the dumped items.
  It is proved equal to the field-wise overwrite `ApplyUpdate`.
- `Dates`: a `datetime.date` as (year, month, day), compared
  lexicographically. `Wrappers`: `Option`.

Amounts are whole cents, since the column is `Numeric(12, 2)`. Inputs
arrive already typed, as the framework delivers them.

The method `Crud.CrudCycle` extends the API test cycle and checks it against
the store's contracts. It creates "DevOps"/"Servers" with 1000.00 and reads
it back. It then patches the amount to 1234.00, and once more with the
same patch. Last, it deletes the entry, and deletes it a second time.

## Two consequences of the code as written

- `min_length=1, max_length=64` is checked on the raw category and
  subcategory, and `strip_spaces` runs afterwards (app/schemas.py:14-15,
  19-22). An all-whitespace category is therefore accepted and stored as
  `""` (`Schemas.BlankCategoryIsAccepted`).
- `EntryUpdate` declares no constraint on category, subcategory or comment
  (app/schemas.py:32-35). Status and type stay closed `Literal`s, and
  amount keeps `ge=0`. Category, subcategory and comment are stored as
  given: untrimmed and of any length (`Crud.UpdateBypassesTextRules`,
  `Crud.UpdateBypassesCommentBound`). For
  that reason the store invariant `Store.Valid` keeps `amount >= 0` and
  the primary-key facts, but not the column capacities.

## Model

| member | source | states |
|---|---|---|
| `Dates.Lt` | app/crud.py:37-38 | a date is earlier iff its year is smaller, or the years match and its month is smaller, or year and month match and its day is smaller |
| `Dates.Le` | app/crud.py:37-38 | a date is at or before another iff it is earlier or the same date |
| `Dates.LtIsStrictTotalOrder` | app/crud.py:37-38 | the order used for date bounds and date sorting is irreflexive, asymmetric, transitive and total |
| `Schemas.StatusName` | app/schemas.py:7 | the Literal string of each status tag, as stored in its String(32) column and as compared by the status filter |
| `Schemas.KindName` | app/schemas.py:8 | the Literal string of each type tag, as stored in its String(32) column and as compared by the type filter |
| `Schemas.ParseStatus` | app/schemas.py:7 | a status string is accepted iff it is business, personal or tax, and the accepted value has that name |
| `Schemas.ParseKind` | app/schemas.py:8 | a type string is accepted iff it is income or expense, and the accepted value has that name |
| `Schemas.ParseStatusName` | app/schemas.py:12 | every status value's name is accepted and parses back to that value |
| `Schemas.ParseKindName` | app/schemas.py:13 | every type value's name is accepted and parses back to that value |
| `Schemas.IsSpace` | app/schemas.py:22 | the whitespace set of Python's `str.isspace`, which `strip()` removes: U+0009..U+000D, U+001C..U+0020, U+0085, U+00A0, U+1680, U+2000..U+200A, U+2028, U+2029, U+202F, U+205F and U+3000 |
| `Schemas.Lead` | app/schemas.py:22 | the leading run that strip removes is all whitespace and is followed by a non-space or the end |
| `Schemas.Trail` | app/schemas.py:22 | the trailing run that strip removes is all whitespace and is preceded by a non-space or the start |
| `Schemas.Strip` | app/schemas.py:19-22 | the result has no whitespace at either end and is no longer than the input. It is the input minus a whitespace run in front and one behind. It is empty iff the input is all whitespace |
| `Schemas.StripKeepsStripped` | app/schemas.py:19-22 | a string with no surrounding whitespace is unchanged by strip |
| `Schemas.StripIdempotent` | app/schemas.py:19-22 | stripping twice equals stripping once |
| `Schemas.ValidText` | app/schemas.py:14-15 | a category or subcategory is 1 to 64 characters long, counted on the raw string |
| `Schemas.ValidComment` | app/schemas.py:17 | an absent comment is allowed; a present one is at most 512 characters long |
| `Schemas.ValidCreate` | app/schemas.py:14-17 | both texts meet the text bounds, the amount is at least 0 and the comment meets its bound |
| `Schemas.ValidateCreate` | app/schemas.py:10-22 | a create payload is accepted iff both texts have raw length 1..64, amount >= 0 and any comment is at most 512 long. If accepted, the stored texts are the stripped raw texts, with no surrounding whitespace and at most 64 long, and the other fields are unchanged |
| `Schemas.BlankCategoryIsAccepted` | app/schemas.py:14-22 | a category of three spaces passes validation and is stored as the empty string |
| `Schemas.ValidUpdate` | app/schemas.py:34 | an update is valid iff any amount it sets is at least 0 |
| `Schemas.Item` | app/schemas.py:29-35 | the item emitted for one field is that field's value when set and nothing when unset |
| `Schemas.DumpFrom` | app/schemas.py:29-35 | the items for fields k..6 are exactly the set ones among them, in declaration order |
| `Schemas.Dump` | app/crud.py:20 | the dumped items are exactly the set fields with their values, each field at most once, in declaration order. Nothing is dumped iff every field is unset |
| `Models.AmountNonNegative` | app/models.py:18 | the check constraint `amount >= 0` holds for the row |
| `Models.FitsColumns` | app/models.py:10-15 | the status and type names fit String(32), category and subcategory fit String(64), and a present comment fits String(512) |
| `Models.ValidatedFitsColumns` | app/models.py:10-18 | what create validation accepts fits String(32), String(64) and String(512) and meets amount_non_negative |
| `Deps.Paginate` | app/deps.py:10-14 | limit and offset are accepted iff 1 <= limit <= 500 and offset >= 0, and accepted values pass through unchanged |
| `Deps.PaginationBoundaries` | app/deps.py:7-14 | the defaults 50 and 0 are accepted; 1 and 500 are accepted; 0, 501 and offset -1 are rejected |
| `Crud.Truthy` | app/crud.py:39-42 | a text criterion takes part iff it is present and not the empty string |
| `Crud.Matches` | app/crud.py:36-43 | a row matches iff its date is at or after a present date_from and at or before a present date_to, and its status, type, category and subcategory equal each criterion that is present and non-empty |
| `Crud.Precedes` | app/crud.py:44 | a may come before b in `ORDER BY date DESC, id DESC`: a's date is later, or the dates are equal and a's id is at least b's |
| `Crud.Before` | app/crud.py:44 | a must come before b in `ORDER BY date DESC, id DESC`: a's date is later, or the dates are equal and a's id is larger |
| `Crud.PrecedesTotal` | app/crud.py:44 | any two rows are comparable in the listing order |
| `Crud.PrecedesTransitive` | app/crud.py:44 | the listing order is transitive |
| `Crud.SortedUniqueIsStrict` | app/crud.py:44 | with distinct ids, the listing order has no ties |
| `Crud.Select` | app/crud.py:36-43 | the kept rows are exactly the rows meeting every criterion. The result is a sub-multiset of the rows and keeps ids distinct |
| `Crud.Insert` | app/crud.py:44 | inserting adds exactly one copy of the new row |
| `Crud.InsertSorted` | app/crud.py:44 | inserting into a sequence in listing order keeps it in listing order |
| `Crud.InsertUnique` | app/crud.py:44 | inserting a row with a new id keeps ids distinct |
| `Crud.Sort` | app/crud.py:44 | the result is a permutation of the input in date-descending, id-descending order, and it keeps ids distinct |
| `Crud.Page` | app/crud.py:44 | the page has min(limit, count - offset) rows, or none past the end, and row k is row offset + k of the ordered result |
| `Crud.Ordered` | app/crud.py:35-44 | the full ordered result holds exactly the matching rows, in listing order. With distinct ids it has no duplicates and no ties |
| `Crud.ListEntries` | app/crud.py:34-45 | the result is the page at offset of at most limit rows (defaults 50 and 0) of the matching rows in listing order. So every returned row is a stored row meeting every supplied criterion. The page is in listing order, strictly so when ids are distinct, and has at most limit rows |
| `Crud.FalsyCriteriaIgnored` | app/crud.py:37-43 | with no criteria every row matches; an empty-string criterion has the same effect as an absent one |
| `Crud.StrictlySortedUnique` | app/crud.py:44 | two sequences in strict listing order with the same elements are equal |
| `Crud.ListingDeterministic` | app/crud.py:44 | two scans of the same rows in different orders give the same ordered result and the same page |
| `Crud.PageExtends` | app/crud.py:44 | the rows before offset o, followed by the page at o, are the rows before o + limit |
| `Crud.PagesArePrefix` | app/crud.py:44 | the pages at offsets 0, limit, ..., (n-1)*limit concatenate to the first n*limit elements |
| `Crud.PagesCoverMatches` | app/crud.py:44 | page k of the listing is the page at offset k*limit of the ordered matches. With limit >= 1, enough pages concatenate to the whole ordered match list: every match appears, only matches appear, and none appears twice |
| `Crud.Scan` | app/models.py:8 | a primary-key scan holds exactly the stored rows whose ids are in range, in ascending id order |
| `Models.SetAttr` | app/crud.py:21 | one `setattr` replaces the one field the item names and keeps every other field |
| `Crud.ApplyUpdate` | app/crud.py:16-24 | the field-wise overwrite used as the reference for the update: each field the update sets takes its new value, each unset field keeps the row's value |
| `Crud.ApplyAll` | app/crud.py:20-21 | the items are applied one `setattr` at a time, in order, starting from the stored row |
| `Crud.SetFromStep` | app/crud.py:20-21 | setting one dumped field is the field-wise overwrite restricted to that field |
| `Crud.ApplyAllConcat` | app/crud.py:20-21 | setting two runs of items in turn equals setting their concatenation |
| `Crud.ApplyDumpFrom` | app/crud.py:20-21 | setting the dumped items for fields k..6 overwrites exactly those fields among them that are set |
| `Crud.Overwrite` | app/crud.py:20-21 | the setattr loop over the dumped items returns the field-wise overwrite of the row by the update |
| `Crud.DumpAppliesUpdate` | app/crud.py:20-21 | the setattr loop over the dumped items yields the field-wise overwrite: set fields take the new value, unset fields keep the old one |
| `Crud.ApplyUpdateIdempotent` | tests/test_api.py:39-41 | applying the same update twice gives the state of applying it once, and the empty update changes nothing |
| `Crud.ApplyUpdateKeepsAmount` | app/schemas.py:34 | a valid update of a row with amount >= 0 keeps amount >= 0 |
| `Crud.UpdateBypassesTextRules` | app/schemas.py:32-33 | an update may store a category or a subcategory that is too long or untrimmed, and it still counts as valid |
| `Crud.UpdateBypassesCommentBound` | app/schemas.py:35 | an update may store a comment longer than 512 characters, which then no longer fits the comment column, and it still counts as valid |
| `Crud.Store.Valid` | app/models.py:8-18 | rows are keyed by their primary key, every stored id is between 1 and the next id to be issued, and every row meets `amount >= 0` |
| `Crud.Store.constructor` | app/models.py:8 | the empty table, with the first id to be issued being 1 |
| `Crud.Store.Get` | app/crud.py:13-14 | returns the row iff the id is stored, and that row carries the id |
| `Crud.Store.Create` | app/crud.py:6-11 | stores exactly the given fields under an id above every id issued before, changes nothing else and can be read back with Get |
| `Crud.Store.Update` | app/crud.py:16-24 | for an absent id, returns None and changes nothing. Otherwise it overwrites exactly the set fields of that row, returns the updated row and leaves every other row and the id counter alone. amount >= 0 is preserved |
| `Crud.Store.Delete` | app/crud.py:26-32 | returns true iff the id was stored. It removes only that row, so Get then returns None and a second delete returns false |
| `Crud.Store.Rows` | app/models.py:8 | the table scan holds every stored row exactly once, with distinct ids |
| `Crud.Store.List` | app/crud.py:34-45 | the result is the page at offset of at most limit rows of the stored rows that match, in listing order. So every listed row is stored and meets every criterion. The page is strictly ordered by date descending, then id descending, and has at most limit rows |
| `Crud.CrudCycle` | tests/test_api.py:18-44 | the create and read of the test cycle, its patch of the amount to 1234.00 (which keeps the category) and its delete, all against the store's contracts. It adds a repeated patch, which yields the same row, and a repeated delete, which returns false |
| `Crud.ScanOrderIrrelevant` | app/crud.py:44 | listing any enumeration of the stored rows gives exactly the store's page |

## Left out

- app/main.py: routing, the mapping of `None`/`False` to 404 and 204, the Jinja2 page and its JSON fallback, static files and the lifespan hook.
- SQL session mechanics (`add`, `commit`, `refresh`, `execute`). The in-memory map replaces them. The `.database` module is not part of this model.
- Id assignment is a counter that never reuses an id. How the actual database backend assigns keys is not modelled.
- The database's own enforcement of the `String(n)` capacities is not modelled, so an over-long update is stored as given.
- Store.Create: requires `amount >= 0`. A negative amount would violate the check constraint at commit, and database failures are not modelled.
- Store.Update: requires a valid `EntryUpdate`, which is what the framework hands over. An explicit null for a non-nullable field fails only at commit, and it is not modelled. An explicit null comment is modelled.
- Parsing of JSON, query strings and date strings, and type coercion. Inputs arrive typed. `limit` and `offset` reach `ListEntries` as `nat`, because `Paginate` has already rejected negative values.
- Float amounts and the upper bound of the `Numeric(12, 2)` column. Amounts are unbounded integer cents.
- SQL string comparison is taken to be exact equality on characters (no collation or case folding).
- Store.Update / EntryUpdate.date: the model keeps the date settable by an update. This is unverified: app/schemas.py:1 postpones annotations, and in the class namespace of app/schemas.py:29 the name `date` may refer to the field's own default `None`. If so, the annotation would evaluate to `Optional[None]`, and every non-null date in an update would be rejected. The model follows the evident intent, an optional `datetime.date`.
- Concurrency and transactions: each request is one store operation.
- Re-validation of responses through `EntryOut` (`response_model`, app/main.py:97, 102, 110, 131) is not modelled. `EntryOut` inherits the length bounds and `strip_spaces` of `EntryBase`, so a stored `""` category or an over-long or untrimmed updated category would fail, or be stripped, in the response after the commit. The model returns the stored row as is.
