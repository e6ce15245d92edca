# Estimate manager: interchange, store and form editing in Dafny

This project models the logic of a desktop estimate manager. An estimate is a client/project quote with
priced line items. The project covers three parts:

- **Spreadsheet interchange** of the Electron back end (`electron/main.js`):
  - Export flattens estimates into one worksheet row per line item.
  - Import groups worksheet rows back into estimates. A row whose id, client and project cells are all truthy opens an estimate. While an estimate is open, every row with a truthy description adds an item to it; rows before the first opening row are dropped. Numbers are coerced with `Number(x) || 0`. Totals are recomputed at the end.
- **The estimate store** behind both back ends (`electron/main.js` and `src-tauri/src/main.rs`). It has:
  - an `estimates` table keyed by id;
  - an `estimate_items` table whose rows carry their estimate's id;
  - the AUTOINCREMENT counter;
  - the list, save, update and delete handlers.
- **Item-list editing in the estimate form** (`src/components/EstimateForm.tsx`) and the estimate the form submits. The placeholder spreadsheet commands of the Tauri back end are modelled too.

Modules:

- `Wrappers`: `Option` and `Result`.
- `Records`: the item, estimate and submitted-estimate records, and `AmountSum`. `AmountSum` is the left fold `items.reduce((sum, item) => sum + item.amount, 0)`.
- `Cells`: worksheet cell values (`Blank | Num | Text`), JavaScript truthiness, and `Number(x)` / `Number(x) || 0`.
- `Interchange`: the export, a `method` with the source's nested loops, and the import.
  - The import is a `method` with the source's `currentEstimate` accumulator, the final push and the totals loop.
  - Each method is proved equal to a specification function: `ExportRows` or `ImportRows`.
- `RoundTrip`: what the import's grouping means. The data rows of every worksheet split, in exactly one way, into two parts:
  - a prefix in which no row opens an estimate;
  - groups, each an opening row followed by rows that do not open one.

  The import returns one estimate per group, in order. The module also proves the export/import round trip.
- `Store`: the class `EstimateStore`, holding the two tables and the id counter.
  - Its handlers run their SQL statements one by one.
  - The engine's foreign-key enforcement is the constant `foreignKeys`. With it on (Electron's engine enforces foreign keys by default):
    - deleting an estimate cascades to its items;
    - inserting an item under an id with no estimate fails.

    With it off, neither happens. The Rust back end never runs `PRAGMA foreign_keys`, so whether it enforces foreign keys depends on the compile-time default of the SQLite library it is built with, which the source does not fix; `foreignKeys` covers both cases.
  - A `fault: Option<nat>` parameter says which statement of a call hits a storage failure. Writes of earlier statements stay, because no transaction encloses them.
- `EstimateForm`: `addItem`, `removeItem`, `updateItem` (a `method` over a copied array, as the source writes it), and the estimate built by `handleSubmit`.
- `TauriCommands`: `export_to_excel` and `import_from_excel`, which are placeholders in the Rust back end.

Representation choices:

- **Clock and date formatting:** the clock (`now`) and the locale's date formatting (`formatDate`) are parameters.
- **Timestamps** are integers. Electron stores `toISOString()` text, which has one fixed format. Rust stores `to_rfc3339()` text, with 0, 3, 6 or 9 fraction digits and a `+00:00` offset; '+' sorts before '.' and every digit, so a shorter fraction still sorts first. In both, text order is the order of the instants.
- **Money and quantities** are exact reals.

Two behaviours of the code are worth stating outright:

- **Update with an unknown id is not a silent no-op.** With foreign keys enforced and non-empty items:
  - the `UPDATE` matches nothing;
  - the `DELETE` removes nothing;
  - the first item insert fails with a foreign-key violation.

  `Store.EstimateStore.Update` states this error. Without enforcement, the items are inserted as orphan rows under that id.
- **Deleting an estimate leaves no orphan items only while foreign keys are enforced.** Without enforcement, `Store.EstimateStore.Delete` leaves the item rows in place.

The round trip needs every exported estimate to have:

- at least one item;
- a non-zero id;
- non-empty client and project names;
- non-empty descriptions.

`RoundTrip.UnnamedClientMerges` shows why the client name matters. When an estimate's client name is empty, its rows open nothing, and its items are imported into the estimate exported before it.

## Model

| member | source | states |
|---|---|---|
| Records.AmountSumAppend | src/components/EstimateForm.tsx:56-58 | the total of a concatenated item list is the sum of the two lists' totals |
| Records.AmountSumUpdate | src/components/EstimateForm.tsx:43-58 | replacing one item changes the total by exactly the difference of that item's old and new amounts |
| Cells.Coerce | electron/main.js:273-275 | `Number(x) \|\| 0` never fails: a number cell gives its number, an empty cell or a non-numeric value gives 0, a numeric text gives its value |
| Cells.ParseNumeral | electron/main.js:273-275 | the text of a natural number, with or without a leading minus, reads back as that number |
| Cells.NotNumeral | electron/main.js:273-275 | text whose first character is neither white space nor one that can begin a decimal numeral (digit, '.', '-', '+') reads as NaN, whatever follows it; text starting with 'I' is in this class only because the model reads `Infinity` as NaN |
| Cells.PaddedNumeral | electron/main.js:273-275 | white space (as JavaScript's `Number` trims it) before and after a printed natural number is ignored |
| Cells.NonNumericIsZero | electron/main.js:273-275 | a quantity cell holding "abc" reads as NaN and imports as 0, not as an error |
| Interchange.GroupRows | electron/main.js:202-216 | an estimate's group has exactly one row per item |
| Interchange.Export | electron/main.js:188-217 | the worksheet is the header row followed by every estimate's group, in estimate order, as the nested loops add them |
| Interchange.ExportRowCount | electron/main.js:201-217 | the export has one data row per item over all estimates, so an estimate without items adds no row |
| Interchange.GroupLayout | electron/main.js:204-215 | id, client, project, total and the two dates are set on the first row of a group only and are '' on later rows; description, quantity, unit price and amount are copied onto every row |
| Interchange.ImportRows | electron/main.js:243-288 | every imported estimate's total is the sum of its items' amounts |
| Interchange.Import | electron/main.js:243-288 | the loop that skips the header, keeps the open estimate in `current`, pushes it when a later row opens one, pushes the last one and recomputes every total returns exactly `ImportRows` |
| RoundTrip.ScanNoneOpen | electron/main.js:258-277 | rows that open nothing only append their described items to the open estimate, and are dropped when none is open |
| RoundTrip.ScanGroup | electron/main.js:258-277 | an opening row pushes the open estimate and opens a new empty one; its own item and those of the following non-opening rows are added to it |
| RoundTrip.ScanGroups | electron/main.js:246-282 | a prefix of non-opening rows followed by groups imports, before totals, as one open estimate per group in order |
| RoundTrip.TotalsOfOpenGroups | electron/main.js:284-286 | recomputing totals sets each group's total to the sum of its items' amounts |
| RoundTrip.ImportGroups | electron/main.js:243-288 | a worksheet laid out as header, a non-opening prefix and groups imports as exactly one estimate per group, in order of first appearance |
| RoundTrip.DroppedBeforeFirstGroup | electron/main.js:270-277 | rows before the first opening row are dropped, including their items |
| RoundTrip.Split | electron/main.js:258-268 | every sequence of data rows is a non-opening prefix followed by groups, each an opening row and the non-opening rows after it |
| RoundTrip.SplitUnique | electron/main.js:258-268 | that split is the only one: any non-opening prefix and groups that make up the rows are `Split`'s |
| RoundTrip.ImportAnySheet | electron/main.js:243-288 | any worksheet, the empty one included, imports as one estimate per group of its data rows, with that group's described items and their sum as total |
| RoundTrip.GroupItems | electron/main.js:204-211 | the item cells of an estimate's rows read back as its items, in order |
| RoundTrip.ItemsOfRows | electron/main.js:270-277 | rows that each carry a described item import as exactly those items, in row order |
| RoundTrip.ReimportedSum | electron/main.js:284-286 | the recomputed total of re-imported items equals the original items' amount sum |
| RoundTrip.ExportedGroup | electron/main.js:201-217 | an exportable estimate's rows form exactly one group, which imports as its names, its items and their sum |
| RoundTrip.ExportRowsAreGroups | electron/main.js:201-217 | the exported data rows are the concatenation of the estimates' groups |
| RoundTrip.ExportedGroupsImport | electron/main.js:246-286 | importing the groups of exportable estimates yields one re-imported estimate per estimate, in order |
| RoundTrip.RoundTripExport | electron/main.js:201-288 | exporting estimates with items, a non-zero id, names and descriptions and importing the result returns as many estimates, in the same order, each with its client, project and items (description, quantity, unit price, amount) in order, and the total equal to the sum of amounts |
| RoundTrip.UnnamedClientMerges | electron/main.js:258-268 | an estimate exported with an empty client name opens no group, so its items join the previous estimate |
| RoundTrip.SingleGroup | electron/main.js:246-286 | data rows that form one group import as exactly that group's estimate |
| RoundTrip.MergedIsGroup | electron/main.js:258-268 | an exportable estimate's rows followed by those of an estimate with no client name form one group |
| RoundTrip.MergedItems | electron/main.js:270-277 | that merged group carries both estimates' items, in order |
| RoundTrip.MergedGroup | electron/main.js:262-286 | the merged group imports as the first estimate's names with both item lists and their combined sum |
| RoundTrip.ImportExample | electron/main.js:246-286 | rows (1,A,P,X,2,3,6), ('','','',Y,1,5,5), (2,B,Q,Z,1,1,1) import as two estimates: A/P with X and Y and total 11, B/Q with Z and total 1 |
| Store.WithoutMembers | electron/main.js:160 | deleting the items of an id keeps exactly the rows of other estimates |
| Store.ItemsOfWithout | electron/main.js:160 | after that delete the id has no items and every other estimate keeps its own |
| Store.ItemsOfRowsFor | electron/main.js:167-169 | rows inserted under an id are exactly that id's items and no other's |
| Store.ItemsOfAppend | electron/main.js:105 | the items of an id over appended rows are the items in the first part followed by those in the second |
| Store.InsertPos | electron/main.js:102 | the place of an estimate in a list ordered by `updatedAt` descending comes after every estimate updated at the same time or later |
| Store.InsertByUpdated | electron/main.js:102 | inserting at that place keeps the list ordered, adds exactly that estimate (as a multiset) and keeps ids distinct |
| Store.EstimateStore.constructor | electron/main.js:36-58 | the store starts with empty tables and the counter at 1 |
| Store.EstimateStore.ItemsFor | electron/main.js:105 | collecting item rows one by one yields exactly the items whose `estimateId` is the id, in table order |
| Store.EstimateStore.List | electron/main.js:101-111 | the list holds every stored estimate exactly once, ordered by `updatedAt` descending, each with exactly its own items; a failing read is reported as an error |
| Store.EstimateStore.InsertItems | src-tauri/src/main.rs:104-109 | items are inserted in order until the first failing insert, which ends the call with a storage or foreign-key error and keeps the earlier rows |
| Store.EstimateStore.Save | electron/main.js:113-141 | the new row gets a fresh id and both timestamps `now`, the items follow in submitted order under that id, and the id is returned; a failure after the estimate row keeps that row and the items inserted before it |
| Store.EstimateStore.Update | electron/main.js:143-170 | only client, project, total and `updatedAt` change, never `createdAt` or the set of ids; the item set of the id is replaced, never merged, and other estimates keep their items; deletion and reinsertion run even for an unknown id |
| Store.EstimateStore.Delete | electron/main.js:172-174 | the estimate is removed and, with foreign keys enforced, its items with it; an unknown id is not an error and changes nothing |
| Store.EstimateStore.LatestFirst | electron/main.js:102 | an estimate updated later than every other appears first in any listing |
| EstimateForm.AddItem | src/components/EstimateForm.tsx:33-35 | a default item (description '', quantity 1, prices 0) is appended, the other items are unchanged, and the total is unchanged |
| EstimateForm.RemoveItem | src/components/EstimateForm.tsx:37-41 | with more than one item, exactly the item at the index is removed and the total drops by its amount; otherwise, or for an index no item has, the list is unchanged; a non-empty list never becomes empty |
| EstimateForm.RemovedSum | src/components/EstimateForm.tsx:37-58 | removing an item lowers the total by that item's amount |
| EstimateForm.NeverEmpty | src/components/EstimateForm.tsx:21-41 | starting from its one default item, the form's item list stays non-empty through any sequence of adds and removes |
| EstimateForm.RemoveAfterAdd | src/components/EstimateForm.tsx:33-41 | removing the item just added gives back the previous list |
| EstimateForm.UpdateItem | src/components/EstimateForm.tsx:43-54 | only the edited field of the indexed item changes, plus its amount, which becomes quantity times unit price with the new value for quantity or unit price edits; other items and the length stay; the total changes by the difference in that item's amount |
| EstimateForm.Submit | src/components/EstimateForm.tsx:60-84 | the submitted total is the sum of the item amounts; an edit keeps the selected estimate's id and `createdAt` and replaces names, items, total and `updatedAt`; otherwise a new estimate without id or timestamps is submitted |
| EstimateForm.ResubmitUnchanged | src/components/EstimateForm.tsx:70-78 | submitting an edited estimate unchanged, when its total already matches its items, changes only `updatedAt` |
| TauriCommands.ExportToExcel | src-tauri/src/main.rs:138-143 | the Rust export reports "exported.xlsx" whatever its input |
| TauriCommands.ImportFromExcel | src-tauri/src/main.rs:145-149 | the Rust import always returns no estimates |

The Rust handlers `get_estimates`, `save_estimate`, `update_estimate` and `delete_estimate` (src-tauri/src/main.rs:59-136) run the same statements in the same order as the Electron handlers. `Store.EstimateStore.List`, `Save`, `Update` and `Delete` model both; `foreignKeys` is on or off there as the SQLite build decides.

## Left out

- Worksheet and file I/O, the save and open dialogs, and ExcelJS: the worksheet is a sequence of rows of cells, and export returns it.
- ExcelJS `eachRow` skips rows without values: the model scans every row. A row without values opens nothing and adds no item, so the result is the same.
- Column widths, header styling, and locale date formatting: formatting is the `formatDate` parameter, whose text the import never reads.
- Electron and Tauri bootstrapping, window lifecycle, `electron/preload.js`, `electron/test-main.js` and the presentation components: process plumbing and markup.
- `src/store/estimateStore.ts` is not part of this model: it forwards calls to the back end and keeps a loading/error flag.
- Store re-initialisation on every Rust command (`init_database`): a failing open is one more storage failure, which the `fault` and `readFails` parameters cover.
- The storage engine's internals (prepared statements, the index, AUTOINCREMENT bookkeeping): the counter `nextId` stands for them.
- The store row id of each item, which the Electron listing also returns: items are listed by their four fields.
- Missing or null fields (`ConstraintViolation` on NOT NULL columns, and a Rust estimate with no id): the records are typed and always carry every field.
- Floating-point arithmetic: money and quantities are exact reals, so rounding is not modelled.
- Cells.ParseNumber: reads white space, an optional sign and `digits`, `digits.digits`, `digits.` or `.digits`. Exponents, `Infinity`, hexadecimal, octal and binary literals, read as NaN, where JavaScript reads numbers. White space is JavaScript's set as of Unicode 15.
- Cells.Cell: ExcelJS dates, formulas, rich text and hyperlink objects are left out. A cell is empty, a number or text.
- Argument decoding and result encoding of the Rust commands: the models take and return typed records. The Rust records derive serde with snake_case field names (`client_name`, `unit_price`, ...), while `src/store/estimateStore.ts` sends camelCase objects, so as called from the app `save_estimate`, `update_estimate` and a non-empty `export_to_excel` fail to decode their argument before the body runs, and `get_estimates` returns snake_case keys, so the front end's `clientName` and `totalAmount` read as undefined. Neither mismatch is modelled.
- EstimateForm.UpdateItem: the source stores the raw typed value in the field (a string for inputs) and converts it with `Number` only to compute the amount. The model stores the converted number.
- EstimateForm.UpdateItem: requires an index the list has. The form only edits rows it displays, and an out-of-range index would extend the JavaScript array.
- Store.EstimateStore.List: the order of estimates with equal `updatedAt` is the engine's choice. The contract leaves it open, and the body lists ties in id order.
