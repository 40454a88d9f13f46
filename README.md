# Customer-specific prices and quote price persistence

This project models, in Dafny, the core of a Shopware 6 plugin that manages
customer-specific prices (one price per customer and product) and turns
accepted quote prices into such prices. It covers these parts:

- the administration's CSV component (`sw-data-csv`): `parseCSV`, the
  row-by-row import, `saveCustomPrice` and `exportCSV`;
- the custom price list page: fetching and paging the list, the add, edit
  and delete dialogs, `fetchExistingPrice` and `addOrUpdateCustomPrice`;
- the storefront `ProductPageSubscriber`: it attaches the catalog gross of
  a product to the product page, to listings and to search results;
- the `QuoteCustomerResponseSubscriber`: on quote acceptance, it syncs one
  upsert for every line item flagged `persistPrice` whose total differs
  from the catalog gross;
- the `main.js` override of the quote line-item grid: the "Quote Price"
  column and the `persistPrice` accessors.

Modules:

- `Common`: option and result values, the failures a host call raises,
  JSON values, and JavaScript's optional chaining and truthiness.
  - Floating-point conversions (`parseFloat`, `toFixed(2)`,
    `number_format`) are functions supplied in a `Host` record. They are
    never interpreted.
- `Text`: `split`, `join` and `trim` on strings, with their round trips.
- `PriceStore`: the custom price record, the tier JSON every writer stores,
  and the custom price repository.
  - The repository is a `Repository` class. Its `online` flag stands for
    the host rejecting a call.
  - The upsert keyed by (customer, product) is the specification of every
    save.
- `CsvParse`: `parseCSV`.
- `CsvData`: the import loop, `saveCustomPrice`, the export, and the
  `CsvComponent` class.
- `PriceList`: the list page, as the `ListPage` class.
  - Its fields are the page's `data()`.
  - Each method states the component's whole new state.
- `ProductPage`: the product page subscriber, with products extended in
  place.
- `QuoteHook`: the quote acceptance hook.
  - The custom price updater is the log of its `sync` calls.
- `QuoteLineItems`: the line-item grid override.

## Model

| member | source | states |
|---|---|---|
| `Common.At0` | src/Resources/app/administration/src/module/customer-specific-price/page/customer-specific-price-list/index.js:143-144 | `v?.[0]`: the first item of an array, key "0" of an object, undefined for null, booleans and numbers |
| `Common.Member` | src/Resources/app/administration/src/module/customer-specific-price/page/customer-specific-price-list/index.js:143-144 | `v?.key`: defined exactly for an object with that own key, and then its value |
| `Common.Truthy` | src/Resources/app/administration/src/module/customer-specific-price/components/sw-data-csv/index.js:170 | JavaScript truthiness: undefined, null, false, 0 and "" are falsy, everything else is truthy |
| `Common.ToText` | src/Resources/app/administration/src/module/customer-specific-price/components/sw-data-csv/index.js:173 | `String(v)` as a template literal applies it: text as it is, a number through the host, an array joined by commas with nulls empty, an object "[object Object]" |
| `Text.TrimStart` | src/Resources/app/administration/src/module/customer-specific-price/components/sw-data-csv/index.js:42 | removes exactly the leading whitespace: a suffix of the input, preceded only by whitespace, not starting with whitespace |
| `Text.TrimEnd` | src/Resources/app/administration/src/module/customer-specific-price/components/sw-data-csv/index.js:42 | removes exactly the trailing whitespace: a prefix of the input, followed only by whitespace |
| `Text.Trim` | src/Resources/app/administration/src/module/customer-specific-price/components/sw-data-csv/index.js:47 | the result is a stretch of the input with only whitespace around it, and has no whitespace at either end |
| `Text.TrimOfTrimmed` | src/Resources/app/administration/src/module/customer-specific-price/components/sw-data-csv/index.js:42 | trimming a string without edge whitespace returns it unchanged |
| `Text.Split` | src/Resources/app/administration/src/module/customer-specific-price/components/sw-data-csv/index.js:41 | `split(sep)` yields at least one piece, and no piece contains the separator |
| `Text.JoinSplit` | src/Resources/app/administration/src/module/customer-specific-price/components/sw-data-csv/index.js:41 | joining the pieces of a split with the separator gives back the string |
| `Text.SplitJoin` | src/Resources/app/administration/src/module/customer-specific-price/components/sw-data-csv/index.js:176 | splitting a join of separator-free pieces gives back the pieces |
| `Text.SplitNoSep` | src/Resources/app/administration/src/module/customer-specific-price/components/sw-data-csv/index.js:45 | a string without the separator splits into itself alone |
| `Text.SplitPrefix` | src/Resources/app/administration/src/module/customer-specific-price/components/sw-data-csv/index.js:45 | a separator-free head followed by a separator is the first piece, then the rest splits on its own |
| `Text.JoinAppend` | src/Resources/app/administration/src/module/customer-specific-price/components/sw-data-csv/index.js:176 | joining two non-empty lists is joining each and putting one separator between |
| `Text.SplitAround` | src/Resources/app/administration/src/module/customer-specific-price/components/sw-data-csv/index.js:41 | splitting at a separator splits each side independently |
| `Text.SplitTrailing` | src/Resources/app/administration/src/module/customer-specific-price/components/sw-data-csv/index.js:41 | a trailing separator adds exactly one empty last piece |
| `PriceStore.DecodeEncodeEntries` | src/Resources/app/administration/src/module/customer-specific-price/components/sw-data-csv/index.js:125-132 | the JSON of a list of currency entries decodes back to the same entries |
| `PriceStore.DecodeEncodeTier` | src/Resources/app/administration/src/module/customer-specific-price/components/sw-data-csv/index.js:121-134 | the JSON of one tier decodes back to the same tier |
| `PriceStore.DecodeEncodeTiers` | src/Resources/app/administration/src/module/customer-specific-price/components/sw-data-csv/index.js:121-134 | the JSON of a list of tiers decodes back to the same tiers |
| `PriceStore.FlatPriceDecodes` | src/Resources/app/administration/src/module/customer-specific-price/components/sw-data-csv/index.js:121-134 | the price a save writes is one tier: quantity 1 to unbounded, one system-currency entry with net and gross as two-decimal text, linked |
| `PriceStore.FlatPrice` | src/Resources/app/administration/src/module/customer-specific-price/components/sw-data-csv/index.js:121-134 | the price the import and the form store: one tier from quantity 1 with no upper bound, one linked system-currency entry, net and gross as two-decimal text |
| `PriceStore.TierAmount` | src/Resources/app/administration/src/module/customer-specific-price/page/customer-specific-price-list/index.js:143-144 | reads `price[0].price[0][key]`, where every writer puts the amounts; the export, the list and the form use this corrected read |
| `PriceStore.TierAmountReadsFirstEntry` | src/Resources/app/administration/src/module/customer-specific-price/components/sw-data-csv/index.js:121-134 | on any stored tier list, that read yields the first tier's first entry's net and gross |
| `PriceStore.Lookup` | src/Resources/app/administration/src/module/customer-specific-price/components/sw-data-csv/index.js:106-114 | the record stored for a (customer, product) pair, if there is one |
| `PriceStore.Upsert` | src/Resources/app/administration/src/module/customer-specific-price/components/sw-data-csv/index.js:106-136 | the pair's record takes the new price, or a fresh record with the next id is appended |
| `PriceStore.SaveById` | src/Resources/app/administration/src/module/customer-specific-price/components/sw-data-csv/index.js:136 | saving an entity replaces the record with its id, or appends it |
| `PriceStore.DeleteById` | src/Resources/app/administration/src/module/customer-specific-price/page/customer-specific-price-list/index.js:89 | deleting removes the record with that id, when there is one |
| `PriceStore.FindPair` | src/Resources/app/administration/src/module/customer-specific-price/components/sw-data-csv/index.js:106-114 | the search by customer and product finds the first record for that pair, or reports that there is none |
| `PriceStore.FindId` | src/Resources/app/administration/src/module/customer-specific-price/page/customer-specific-price-list/index.js:89 | finds the first record with the id, or reports that there is none |
| `PriceStore.UpsertValid` | src/Resources/app/administration/src/module/customer-specific-price/components/sw-data-csv/index.js:106-136 | an upsert keeps the store at most one record per pair, with distinct ids below the id counter |
| `PriceStore.UpsertFinds` | src/Resources/app/administration/src/module/customer-specific-price/components/sw-data-csv/index.js:112-136 | after an upsert the pair has a record holding the new price, under the existing record's id, or under a fresh id when there was none |
| `PriceStore.UpsertKeepsOthers` | src/Resources/app/administration/src/module/customer-specific-price/components/sw-data-csv/index.js:112-136 | records of other pairs stay where and as they were |
| `PriceStore.UpsertOtherPair` | src/Resources/app/administration/src/module/customer-specific-price/components/sw-data-csv/index.js:106-136 | the lookup of any other pair is unchanged by an upsert |
| `PriceStore.UpsertSize` | src/Resources/app/administration/src/module/customer-specific-price/components/sw-data-csv/index.js:113-119 | an upsert adds a record exactly when the pair had none; re-saving a pair never adds a second record |
| `PriceStore.UpsertLastWins` | src/Resources/app/administration/src/module/customer-specific-price/components/sw-data-csv/index.js:106-136 | two upserts of one pair equal the second alone: the last price wins |
| `PriceStore.DeleteValid` | src/Resources/app/administration/src/module/customer-specific-price/page/customer-specific-price-list/index.js:88-89 | a delete keeps the store valid, leaves no record with that id, and removes one record exactly when one had the id |
| `PriceStore.SaveIsUpsert` | src/Resources/app/administration/src/module/customer-specific-price/components/sw-data-csv/index.js:110-136 | the source's steps amount to the upsert: search the pair, then save the found record with the new price, or create one with both ids and save it |
| `PriceStore.Repository.Search` | src/Resources/app/administration/src/module/customer-specific-price/components/sw-data-csv/index.js:106-110 | the criteria search returns the pair's record or none, or fails when the host rejects the call |
| `PriceStore.Repository.constructor` | src/Resources/app/administration/src/module/customer-specific-price/components/sw-data-csv/index.js:96 | the custom-price repository starts with the given store and availability |
| `PriceStore.Repository.SearchAll` | src/Resources/app/administration/src/module/customer-specific-price/components/sw-data-csv/index.js:142-147 | the search for all custom prices returns every record, or fails |
| `PriceStore.Repository.Create` | src/Resources/app/administration/src/module/customer-specific-price/components/sw-data-csv/index.js:116 | `create` returns a fresh entity with no ids and no price under the next id |
| `PriceStore.Repository.Save` | src/Resources/app/administration/src/module/customer-specific-price/components/sw-data-csv/index.js:136 | `save` replaces the record with the entity's id or appends it; nothing changes when the host rejects the call |
| `PriceStore.Repository.Delete` | src/Resources/app/administration/src/module/customer-specific-price/page/customer-specific-price-list/index.js:89 | `delete` removes the record with the id; a null id or a rejected call fails and changes nothing |
| `CsvParse.ReduceKeys` | src/Resources/app/administration/src/module/customer-specific-price/components/sw-data-csv/index.js:46-49 | the object built so far has exactly the header names seen so far as keys |
| `CsvParse.Field` | src/Resources/app/administration/src/module/customer-specific-price/components/sw-data-csv/index.js:47 | a header's value: the trimmed cell at its index, or "" when the line has no such cell or it is empty |
| `CsvParse.Reduce` | src/Resources/app/administration/src/module/customer-specific-price/components/sw-data-csv/index.js:46-49 | the row object the reduce builds: each header in turn set to its field, a later duplicate header overwriting an earlier one |
| `CsvParse.ReduceTop` | src/Resources/app/administration/src/module/customer-specific-price/components/sw-data-csv/index.js:46-48 | each step sets its header's name to its trimmed field |
| `CsvParse.ReduceSkip` | src/Resources/app/administration/src/module/customer-specific-price/components/sw-data-csv/index.js:46-48 | each step leaves every other name's value as it was |
| `CsvParse.ReduceLast` | src/Resources/app/administration/src/module/customer-specific-price/components/sw-data-csv/index.js:46-49 | a header name is a key and holds the field of its last position, so a repeated header takes its last field |
| `CsvParse.RowOf` | src/Resources/app/administration/src/module/customer-specific-price/components/sw-data-csv/index.js:44-49 | the object of one line has exactly the header names as keys |
| `CsvParse.TrimAll` | src/Resources/app/administration/src/module/customer-specific-price/components/sw-data-csv/index.js:42 | the headers are trimmed one by one, keeping their number and order |
| `CsvParse.RowsOf` | src/Resources/app/administration/src/module/customer-specific-price/components/sw-data-csv/index.js:41-49 | one object per line, in line order, each keyed by the header names |
| `CsvParse.RowsOfAt` | src/Resources/app/administration/src/module/customer-specific-price/components/sw-data-csv/index.js:44-49 | object k is the object of line k |
| `CsvParse.RowsOfAppend` | src/Resources/app/administration/src/module/customer-specific-price/components/sw-data-csv/index.js:41-49 | one more line adds its object at the end and changes no earlier object |
| `CsvParse.DataRows` | src/Resources/app/administration/src/module/customer-specific-price/components/sw-data-csv/index.js:41-49 | one object per line after the first |
| `CsvParse.DataRowsKeys` | src/Resources/app/administration/src/module/customer-specific-price/components/sw-data-csv/index.js:41-49 | every line object is keyed by exactly the header names |
| `CsvParse.Keep` | src/Resources/app/administration/src/module/customer-specific-price/components/sw-data-csv/index.js:50 | the filter never lengthens the list and keeps only objects with customer id, SKU and price all non-empty |
| `CsvParse.Complete` | src/Resources/app/administration/src/module/customer-specific-price/components/sw-data-csv/index.js:50 | the filter's test: the customer id, SKU and price cells are all present and non-empty |
| `CsvParse.KeepExact` | src/Resources/app/administration/src/module/customer-specific-price/components/sw-data-csv/index.js:50 | the filter keeps every complete object, in order, each as often as it occurs, and drops every incomplete one |
| `CsvParse.ParseCsv` | src/Resources/app/administration/src/module/customer-specific-price/components/sw-data-csv/index.js:40-51 | `parseCSV` yields at most one object per line after the first, each complete |
| `CsvParse.ParseCsvRows` | src/Resources/app/administration/src/module/customer-specific-price/components/sw-data-csv/index.js:40-51 | its objects are exactly the complete line objects, in line order, each keyed by the header names |
| `CsvParse.KeepKeys` | src/Resources/app/administration/src/module/customer-specific-price/components/sw-data-csv/index.js:50 | the filter keeps the key set the rows share |
| `CsvParse.ReduceReadsOnlyHeaders` | src/Resources/app/administration/src/module/customer-specific-price/components/sw-data-csv/index.js:46-48 | values beyond the last header are never read |
| `CsvParse.ExtraFieldsIgnored` | src/Resources/app/administration/src/module/customer-specific-price/components/sw-data-csv/index.js:45-48 | extra fields after the last column leave the object unchanged |
| `CsvParse.ReduceOfEmptyLine` | src/Resources/app/administration/src/module/customer-specific-price/components/sw-data-csv/index.js:47 | a missing or empty field reads as "" |
| `CsvParse.EmptyLineIsIncomplete` | src/Resources/app/administration/src/module/customer-specific-price/components/sw-data-csv/index.js:47-50 | an empty line gives an object the filter drops |
| `CsvParse.KeepDropsIncompleteLast` | src/Resources/app/administration/src/module/customer-specific-price/components/sw-data-csv/index.js:50 | an incomplete last object does not change the filtered list |
| `CsvParse.ParseCsvTrailingNewline` | src/Resources/app/administration/src/module/customer-specific-price/components/sw-data-csv/index.js:41-50 | a trailing newline adds no row |
| `CsvParse.CommaInsideFieldShifts` | src/Resources/app/administration/src/module/customer-specific-price/components/sw-data-csv/index.js:45 | fields are split on every comma, so a comma inside a field splits it in two and moves every later field one column right |
| `CsvParse.JoinMiddle` | src/Resources/app/administration/src/module/customer-specific-price/components/sw-data-csv/index.js:173 | a cell holding a comma joins like two cells |
| `CsvData.RowSave` | src/Resources/app/administration/src/module/customer-specific-price/components/sw-data-csv/index.js:56-61 | a row is saved exactly when its customer id resolves, its SKU resolves and its price parses; the save gets those three values |
| `CsvData.ResolveCustomer` | src/Resources/app/administration/src/module/customer-specific-price/components/sw-data-csv/index.js:79-85 | the customer whose id is the row's "Customer ID", or none |
| `CsvData.ResolveProduct` | src/Resources/app/administration/src/module/customer-specific-price/components/sw-data-csv/index.js:87-93 | the product whose product number is the row's SKU, or none |
| `CsvData.RowPrice` | src/Resources/app/administration/src/module/customer-specific-price/components/sw-data-csv/index.js:58 | `parseFloat` of the row's price cell, none standing for NaN |
| `CsvData.ImportTaxRate` | src/Resources/app/administration/src/module/customer-specific-price/components/sw-data-csv/index.js:100-102 | the product's tax rate; a missing product or tax is a TypeError |
| `CsvData.SaveSpec` | src/Resources/app/administration/src/module/customer-specific-price/components/sw-data-csv/index.js:95-137 | the store after `saveCustomPrice`: the keyed upsert of the flat price at the product's tax rate, or the failure of the tax lookup or of the host |
| `CsvData.ImportStep` | src/Resources/app/administration/src/module/customer-specific-price/components/sw-data-csv/index.js:56-62 | one pass of the loop: a row without customer, product or price is skipped, otherwise it is saved, and a failing save ends the loop |
| `CsvData.ImportRows` | src/Resources/app/administration/src/module/customer-specific-price/components/sw-data-csv/index.js:53-77 | the loop over the rows in file order, stopping at the first failing save |
| `CsvData.ImportFailureAbsorbs` | src/Resources/app/administration/src/module/customer-specific-price/components/sw-data-csv/index.js:54-76 | once a save throws, the loop is over: later rows change nothing |
| `CsvData.ImportIsUpsertAll` | src/Resources/app/administration/src/module/customer-specific-price/components/sw-data-csv/index.js:55-63 | an import that does not fail equals upserting the accepted rows' flat prices, in file order |
| `CsvData.UpsertAllLastWins` | src/Resources/app/administration/src/module/customer-specific-price/components/sw-data-csv/index.js:106-136 | after a sequence of upserts each pair holds its last price, and pairs not touched keep their record |
| `CsvData.ImportLastRowWins` | src/Resources/app/administration/src/module/customer-specific-price/components/sw-data-csv/index.js:55-63 | after an import the last accepted row of a pair decides its price; no pair gets a second record |
| `CsvData.ImportRowsNext` | src/Resources/app/administration/src/module/customer-specific-price/components/sw-data-csv/index.js:54-63 | one more row is one more import step, unless an earlier save already failed |
| `CsvData.ExportCells` | src/Resources/app/administration/src/module/customer-specific-price/components/sw-data-csv/index.js:156-173 | six fields per record, the MSRP field empty and the net field last |
| `CsvData.JoinLines` | src/Resources/app/administration/src/module/customer-specific-price/components/sw-data-csv/index.js:173 | one comma-joined line per record, in record order |
| `CsvData.ExportTable` | src/Resources/app/administration/src/module/customer-specific-price/components/sw-data-csv/index.js:155-174 | one six-field line per record, in order, with the net read from the stored tier (corrected read) |
| `CsvData.ExportCsv` | src/Resources/app/administration/src/module/customer-specific-price/components/sw-data-csv/index.js:149-176 | no file exactly when there are no custom prices |
| `CsvData.ExportNetAsWritten` | src/Resources/app/administration/src/module/customer-specific-price/components/sw-data-csv/index.js:162-171 | the net column as written: "N/A" unless `price[0]` is a non-empty array, a TypeError on a null `price[0][0]`, else its net or "0.00" |
| `CsvData.ExportNet` | src/Resources/app/administration/src/module/customer-specific-price/components/sw-data-csv/index.js:162-171 | the net column with the corrected read of `price[0].price[0].net`: "0.00" when falsy, "N/A" without a tier |
| `CsvData.ExportTableAsWritten` | src/Resources/app/administration/src/module/customer-specific-price/components/sw-data-csv/index.js:155-174 | the export's lines with the as-written net column; a record whose line throws fails the export |
| `CsvData.ExportCsvAsWritten` | src/Resources/app/administration/src/module/customer-specific-price/components/sw-data-csv/index.js:149-176 | the file content built from the as-written lines |
| `CsvData.ExportNetAsWrittenMissesTiers` | src/Resources/app/administration/src/module/customer-specific-price/components/sw-data-csv/index.js:162-171 | as written, the export writes "N/A" for every price stored as tiers |
| `CsvData.ExportNetReadsTier` | src/Resources/app/administration/src/module/customer-specific-price/components/sw-data-csv/index.js:162-171 | read at the tier's price list, the export writes the stored net |
| `CsvData.NoOtherJsonDecodes` | src/Resources/app/administration/src/module/customer-specific-price/components/sw-data-csv/index.js:163-168 | every price in the tier shape is an array whose first item is an object, never an array |
| `CsvData.AsWrittenTableIsNA` | src/Resources/app/administration/src/module/customer-specific-price/components/sw-data-csv/index.js:155-174 | as written, every exported line of tier-shaped prices ends in "N/A" |
| `CsvData.AsWrittenNetIsNA` | src/Resources/app/administration/src/module/customer-specific-price/components/sw-data-csv/index.js:162-171 | as written, the net cell of any price stored as a tier list is "N/A" |
| `CsvData.JoinKeepsOut` | src/Resources/app/administration/src/module/customer-specific-price/components/sw-data-csv/index.js:176 | joining never introduces a character other than the separator |
| `CsvData.ExportColumnsFacts` | src/Resources/app/administration/src/module/customer-specific-price/components/sw-data-csv/index.js:154 | the export header has six distinct plain names, with customer id, SKU and price where the import reads them |
| `CsvData.ColumnClean` | src/Resources/app/administration/src/module/customer-specific-price/components/sw-data-csv/index.js:154 | every export header name is free of commas, newlines and edge whitespace |
| `CsvData.CleanJoinSplits` | src/Resources/app/administration/src/module/customer-specific-price/components/sw-data-csv/index.js:173 | a line of plain cells has no newline and splits and trims back to its cells |
| `CsvData.CleanField` | src/Resources/app/administration/src/module/customer-specific-price/components/sw-data-csv/index.js:47 | a plain cell reads back as itself |
| `CsvData.DistinctLast` | src/Resources/app/administration/src/module/customer-specific-price/components/sw-data-csv/index.js:46-49 | with distinct headers every header is its own last occurrence |
| `CsvData.CleanLineParses` | src/Resources/app/administration/src/module/customer-specific-price/components/sw-data-csv/index.js:44-49 | a line of plain cells parses to the object mapping each header to its cell |
| `CsvData.CleanCsvLines` | src/Resources/app/administration/src/module/customer-specific-price/components/sw-data-csv/index.js:176 | the exported text splits into the header line and one line per record |
| `CsvData.CleanCsvHeaders` | src/Resources/app/administration/src/module/customer-specific-price/components/sw-data-csv/index.js:41-42 | parsing the exported text recovers the header and one object per record |
| `CsvData.CleanRowParses` | src/Resources/app/administration/src/module/customer-specific-price/components/sw-data-csv/index.js:44-49 | the k-th exported line parses to the k-th record's cells |
| `CsvData.CleanRowLine` | src/Resources/app/administration/src/module/customer-specific-price/components/sw-data-csv/index.js:41-49 | the k-th exported data line is the k-th record's cells joined by commas |
| `CsvData.CleanCsvParses` | src/Resources/app/administration/src/module/customer-specific-price/components/sw-data-csv/index.js:40-49 | every exported line parses back to its cells under the header |
| `CsvData.KeepAllComplete` | src/Resources/app/administration/src/module/customer-specific-price/components/sw-data-csv/index.js:50 | the filter keeps a list of complete objects whole |
| `CsvData.ExportTableParses` | src/Resources/app/administration/src/module/customer-specific-price/components/sw-data-csv/index.js:40-50 | parsing an export of plain lines gives one row per line with its customer id, SKU and price |
| `CsvData.ImportColumnsParse` | src/Resources/app/administration/src/module/customer-specific-price/components/sw-data-csv/index.js:40-50 | the same for any six plain distinct headers placed as the export places them |
| `CsvData.ParsedImport` | src/Resources/app/administration/src/module/customer-specific-price/components/sw-data-csv/index.js:50 | when every line object is complete and carries its row's cells, the filter keeps them all, in order |
| `CsvData.ImportedRows` | src/Resources/app/administration/src/module/customer-specific-price/components/sw-data-csv/index.js:40-50 | every object of such a file is complete and holds its line's customer id, SKU and price |
| `CsvData.ImportedRowAt` | src/Resources/app/administration/src/module/customer-specific-price/components/sw-data-csv/index.js:44-50 | object k of such a file is complete and holds line k's customer id, SKU and price |
| `CsvData.ImportedRow` | src/Resources/app/administration/src/module/customer-specific-price/components/sw-data-csv/index.js:50 | an object holding a clean line's cells under the export header is complete and carries the line's customer id, SKU and net |
| `CsvData.ExportThenParse` | src/Resources/app/administration/src/module/customer-specific-price/components/sw-data-csv/index.js:149-176 | with the corrected read, re-parsing an export gives back every record's customer id, SKU and stored net |
| `CsvData.ImportSkipsAll` | src/Resources/app/administration/src/module/customer-specific-price/components/sw-data-csv/index.js:55-63 | rows none of which is saved leave the store as it was |
| `CsvData.AsWrittenExportDoesNotReimport` | src/Resources/app/administration/src/module/customer-specific-price/components/sw-data-csv/index.js:162-171 | as written, re-importing an export of tier-shaped prices changes nothing, because every price cell is "N/A" |
| `CsvData.NotANumberSkipped` | src/Resources/app/administration/src/module/customer-specific-price/components/sw-data-csv/index.js:58-60 | a row whose price cell is "N/A" is never saved, since it does not parse |
| `CsvData.CsvComponent.constructor` | src/Resources/app/administration/src/module/customer-specific-price/components/sw-data-csv/index.js:10-15 | neither processing nor exporting at first |
| `CsvData.CsvComponent.SaveCustomPrice` | src/Resources/app/administration/src/module/customer-specific-price/components/sw-data-csv/index.js:95-137 | the repository ends as the keyed upsert of the flat price, or unchanged when the product, its tax or a host call fails; the store stays valid |
| `CsvData.CsvComponent.ProcessCsvData` | src/Resources/app/administration/src/module/customer-specific-price/components/sw-data-csv/index.js:53-77 | the loop leaves the repository as the sequential import of the rows, and reports whether it completed |
| `CsvData.CsvComponent.ImportCsv` | src/Resources/app/administration/src/module/customer-specific-price/components/sw-data-csv/index.js:31-35 | the file's import is the processing of its parsed rows |
| `CsvData.CsvComponent.ExportCsvFile` | src/Resources/app/administration/src/module/customer-specific-price/components/sw-data-csv/index.js:139-176 | the content is the export of all records and the flag is cleared, or the flag stays set when the search fails |
| `PriceList.Newest` | src/Resources/app/administration/src/module/customer-specific-price/page/customer-specific-price-list/index.js:165 | newest first: the records in reverse creation order |
| `PriceList.PageOf` | src/Resources/app/administration/src/module/customer-specific-price/page/customer-specific-price-list/index.js:162 | a page holds at most `limit` rows, the ones at positions (page-1)·limit onward; a page or limit below 1 is rejected |
| `PriceList.PageOfIndex` | src/Resources/app/administration/src/module/customer-specific-price/page/customer-specific-price-list/index.js:162 | every row is on exactly the page its position gives |
| `PriceList.ProductName` | src/Resources/app/administration/src/module/customer-specific-price/page/customer-specific-price-list/index.js:142 | the product cell is never empty: translated name, else name, else "N/A" |
| `PriceList.CustomerName` | src/Resources/app/administration/src/module/customer-specific-price/page/customer-specific-price-list/index.js:140 | the customer column: first and last name, or "N/A" |
| `PriceList.AmountCellAsWritten` | src/Resources/app/administration/src/module/customer-specific-price/page/customer-specific-price-list/index.js:143-144 | `v?.toFixed(2) || "N/A"`: "N/A" for a missing or null value, a number's two-decimal text, a TypeError for anything else, a string included |
| `PriceList.ListAmountAsWritten` | src/Resources/app/administration/src/module/customer-specific-price/page/customer-specific-price-list/index.js:143-144 | the amount column as written, reading `price[0][0]` |
| `PriceList.ToRow` | src/Resources/app/administration/src/module/customer-specific-price/page/customer-specific-price-list/index.js:137-146 | a list row: the record's ids, the customer and product names, and net and gross with the corrected read |
| `PriceList.ExistingAmountAsWritten` | src/Resources/app/administration/src/module/customer-specific-price/page/customer-specific-price-list/index.js:182-184 | the form's amount as written: `parseFloat(price[0][0].net || null)` |
| `PriceList.ExistingAmount` | src/Resources/app/administration/src/module/customer-specific-price/page/customer-specific-price-list/index.js:182-184 | the form's amount with the corrected read of `price[0].price[0].net`, NaN when it is falsy |
| `PriceList.Ready` | src/Resources/app/administration/src/module/customer-specific-price/page/customer-specific-price-list/index.js:191 | the form is saved only with a customer, a product and a truthy amount |
| `PriceList.ListAmount` | src/Resources/app/administration/src/module/customer-specific-price/page/customer-specific-price-list/index.js:143-144 | a price cell is never empty; a number shows two decimals and stored text shows as it is (corrected read) |
| `PriceList.ListRows` | src/Resources/app/administration/src/module/customer-specific-price/page/customer-specific-price-list/index.js:137-146 | one row per record, in order, carrying its id, customer id and product id (corrected read of the amounts) |
| `PriceList.Fetch` | src/Resources/app/administration/src/module/customer-specific-price/page/customer-specific-price-list/index.js:128-159 | the fetch succeeds exactly when the host answers and the page is valid; it gives at most a page of rows and the total count |
| `PriceList.ListAmountAsWrittenMissesTiers` | src/Resources/app/administration/src/module/customer-specific-price/page/customer-specific-price-list/index.js:143-144 | as written, the net and gross cells of every tier-shaped price are "N/A" |
| `PriceList.ListAmountReadsTier` | src/Resources/app/administration/src/module/customer-specific-price/page/customer-specific-price-list/index.js:143-144 | read at the tier's price list, the cells show the stored net and gross |
| `PriceList.ExistingAmountAsWrittenIsNaN` | src/Resources/app/administration/src/module/customer-specific-price/page/customer-specific-price-list/index.js:182-184 | as written, an existing tier-shaped price loads as NaN, which the form then treats as missing |
| `PriceList.ExistingAmountReadsTier` | src/Resources/app/administration/src/module/customer-specific-price/page/customer-specific-price-list/index.js:182-184 | read at the tier's price list, the form loads the parsed stored net |
| `PriceList.FormTaxRate` | src/Resources/app/administration/src/module/customer-specific-price/page/customer-specific-price-list/index.js:200-201 | the form's tax lookup fails only when the product is missing; a missing tax counts as 0 |
| `PriceList.FormAgreesWithImport` | src/Resources/app/administration/src/module/customer-specific-price/page/customer-specific-price-list/index.js:200-201 | where the import finds a tax rate, the form uses the same rate |
| `PriceList.FormSaveSpec` | src/Resources/app/administration/src/module/customer-specific-price/page/customer-specific-price-list/index.js:198-230 | the dialog's save succeeds exactly when the product exists and the host answers |
| `PriceList.Paging` | src/Resources/app/administration/src/module/customer-specific-price/page/customer-specific-price-list/index.js:65-80 | an object sets the page and the limit it carries when they are non-zero and refetches; a positive page number moves to that page and refetches; anything else changes nothing |
| `PriceList.ListPage.constructor` | src/Resources/app/administration/src/module/customer-specific-price/page/customer-specific-price-list/index.js:11-36 | the initial state: page 1, limit 10, no rows, no dialog open, no selection |
| `PriceList.ListPage.FetchCustomPrices` | src/Resources/app/administration/src/module/customer-specific-price/page/customer-specific-price-list/index.js:128-159 | rows and total are the fetched page, or stay and an error is noticed; loading is always off afterwards |
| `PriceList.ListPage.HandleImportFinish` | src/Resources/app/administration/src/module/customer-specific-price/page/customer-specific-price-list/index.js:54-57 | importing ends and the list is refetched: the fetched rows and total, or the old ones and an error notice |
| `PriceList.ListPage.OnPageChange` | src/Resources/app/administration/src/module/customer-specific-price/page/customer-specific-price-list/index.js:65-80 | page and limit are updated as the argument says, and the list is refetched exactly when the argument is accepted, with the fetched rows and total or the old ones and an error notice |
| `PriceList.ListPage.OpenAddCustomPriceModal` | src/Resources/app/administration/src/module/customer-specific-price/page/customer-specific-price-list/index.js:82-84 | opens the add dialog |
| `PriceList.ListPage.OpenDeleteModal` | src/Resources/app/administration/src/module/customer-specific-price/page/customer-specific-price-list/index.js:106-109 | remembers the record id and opens the delete dialog |
| `PriceList.ListPage.CloseDeleteModal` | src/Resources/app/administration/src/module/customer-specific-price/page/customer-specific-price-list/index.js:110-113 | closes the delete dialog and forgets the id |
| `PriceList.ListPage.ConfirmDelete` | src/Resources/app/administration/src/module/customer-specific-price/page/customer-specific-price-list/index.js:86-105 | the record is deleted with a success notice and the list refetched (the fetched rows and total, or the old ones and an error notice), or nothing is deleted with an error notice and the list kept; the dialog always closes |
| `PriceList.ListPage.ResetForm` | src/Resources/app/administration/src/module/customer-specific-price/page/customer-specific-price-list/index.js:58-63 | clears the selection and amount and closes the add dialog |
| `PriceList.ListPage.OpenEditCustomPriceModal` | src/Resources/app/administration/src/module/customer-specific-price/page/customer-specific-price-list/index.js:115-126 | selects the row's customer and product, loads its parsed net or none, and opens the edit dialog |
| `PriceList.ListPage.FetchExistingPrice` | src/Resources/app/administration/src/module/customer-specific-price/page/customer-specific-price-list/index.js:168-188 | the amount is the selected pair's stored net, or none when the selection is incomplete, nothing is stored or the host fails |
| `PriceList.ListPage.SaveForm` | src/Resources/app/administration/src/module/customer-specific-price/page/customer-specific-price-list/index.js:198-230 | the repository ends as the keyed upsert of the flat price at the form's tax rate, or unchanged on failure |
| `PriceList.ListPage.AddOrUpdateCustomPrice` | src/Resources/app/administration/src/module/customer-specific-price/page/customer-specific-price-list/index.js:190-246 | an incomplete form only raises an error notice; otherwise the pair is upserted, noticed as added or updated, the dialogs closed, the form reset and the list refetched, or an error is noticed with the store, form, dialogs and list unchanged |
| `PriceList.ListPage.SaveSucceeded` | src/Resources/app/administration/src/module/customer-specific-price/page/customer-specific-price-list/index.js:232-240 | after a save: a success notice saying added or updated, both dialogs closed, the form reset, loading off, and the list refetched with its rows, total and possible error notice |
| `ProductPage.Handles` | src/Subscriber/ProductPageSubscriber.php:25-32 | the subscriber reacts to the product page, listing and search result events and nothing else |
| `ProductPage.ProductEntity.constructor` | src/Subscriber/ProductPageSubscriber.php:52-61 | a product with its id and the extensions it carries |
| `ProductPage.ProductPageView.constructor` | src/Subscriber/ProductPageSubscriber.php:34-40 | a product page holding its product and its own extensions |
| `ProductPage.ProductPageSubscriber.constructor` | src/Subscriber/ProductPageSubscriber.php:20-23 | the subscriber keeps the product repository it is given |
| `ProductPage.FirstGross` | src/Subscriber/ProductPageSubscriber.php:124-133 | a gross exists exactly when the product has a non-empty price collection |
| `ProductPage.ProductPrice` | src/Subscriber/ProductPageSubscriber.php:64-86 | the product page's price is the first price's gross, and fails when the product, its collection or its first price is missing |
| `ProductPage.PriceMap` | src/Subscriber/ProductPageSubscriber.php:116-138 | the map holds exactly the requested, found products that have a first price |
| `ProductPage.Found` | src/Subscriber/ProductPageSubscriber.php:118-121 | the search by ids finds exactly the requested ids the repository holds |
| `ProductPage.Ids` | src/Subscriber/ProductPageSubscriber.php:91-94 | the product ids of a result, one per product, in order |
| `ProductPage.ListingAgreesWithDetail` | src/Subscriber/ProductPageSubscriber.php:64-138 | a listed product gets the gross the product page would show, and null exactly where the product page would fail |
| `ProductPage.ProductPageSubscriber.GetProductPrices` | src/Subscriber/ProductPageSubscriber.php:116-138 | the loop returns the price map of the requested ids |
| `ProductPage.ProductPageSubscriber.AddOriginalPrices` | src/Subscriber/ProductPageSubscriber.php:89-114 | every product in the result carries the extension holding its mapped gross or null |
| `ProductPage.ProductPageSubscriber.CollectIds` | src/Subscriber/ProductPageSubscriber.php:91-94 | the first loop collects the products' ids in order |
| `ProductPage.ProductPageSubscriber.ApplyPrices` | src/Subscriber/ProductPageSubscriber.php:104-113 | the second loop gives each product, listed once or more, the extension for its id |
| `ProductPage.ProductPageSubscriber.AddOriginalPrice` | src/Subscriber/ProductPageSubscriber.php:52-62 | the product carries its gross as extension, or the call fails and the product is unchanged |
| `ProductPage.ProductPageSubscriber.OnProductPageLoaded` | src/Subscriber/ProductPageSubscriber.php:34-40 | product and page carry the same extension with the product's gross, or nothing changes when the price lookup fails |
| `ProductPage.ProductPageSubscriber.OnProductListingResult` | src/Subscriber/ProductPageSubscriber.php:42-45 | every listed product is extended with its mapped gross or null |
| `ProductPage.ProductPageSubscriber.OnProductSearchResult` | src/Subscriber/ProductPageSubscriber.php:47-50 | every found product is extended exactly as a listing would be |
| `QuoteHook.Handles` | src/EventSubscriber/QuoteCustomerResponseSubscriber.php:31-36 | the hook reacts only to entering the quote's accepted state |
| `QuoteHook.QualifiesIsIsset` | src/EventSubscriber/QuoteCustomerResponseSubscriber.php:45-46 | an item qualifies exactly when its `persistPrice` key is set to something other than null; false qualifies, absence or no custom fields do not |
| `QuoteHook.Qualifies` | src/EventSubscriber/QuoteCustomerResponseSubscriber.php:45-46 | an item is handled when its custom fields are non-empty and `persistPrice` is set and not null |
| `QuoteHook.UpsertOperation` | src/EventSubscriber/QuoteCustomerResponseSubscriber.php:58-82 | the upsert: one payload for the product and the customer, one tier in the context currency with gross the total and net the formatted net, linked |
| `QuoteHook.ItemSync` | src/EventSubscriber/QuoteCustomerResponseSubscriber.php:45-84 | one pass of the loop: the item is skipped, or yields its operations, or fails at the first lookup or division that fails |
| `QuoteHook.Run` | src/EventSubscriber/QuoteCustomerResponseSubscriber.php:43-86 | the loop over the line items in order, collecting the sync calls and stopping at the first failure |
| `QuoteHook.FindCurrency` | src/EventSubscriber/QuoteCustomerResponseSubscriber.php:50 | finds a price entry of the currency, or reports that the collection has none |
| `QuoteHook.CurrencyPrice` | src/EventSubscriber/QuoteCustomerResponseSubscriber.php:50 | the catalog price in the context currency, else in the default currency, else null |
| `QuoteHook.NetPrice` | src/EventSubscriber/QuoteCustomerResponseSubscriber.php:55 | net times (1 + rate/100) is the total; a rate of -100 divides by zero |
| `QuoteHook.ItemSyncSelects` | src/EventSubscriber/QuoteCustomerResponseSubscriber.php:45-83 | an item syncs exactly when it qualifies and its total differs from the catalog gross; it syncs one upsert with its product, the event's customer, and one tier 1..null in the context currency with gross the total, net from the first tax rule's rate, linked |
| `QuoteHook.Selected` | src/EventSubscriber/QuoteCustomerResponseSubscriber.php:43-86 | at most one sync call per line item |
| `QuoteHook.SelectedAppend` | src/EventSubscriber/QuoteCustomerResponseSubscriber.php:43-86 | the selection of a longer list extends that of its prefix |
| `QuoteHook.RunCompletes` | src/EventSubscriber/QuoteCustomerResponseSubscriber.php:43-86 | a run without failure makes exactly one sync call per qualifying, diverging item, in item order |
| `QuoteHook.RunFails` | src/EventSubscriber/QuoteCustomerResponseSubscriber.php:43-86 | a failing run stops at the first failing item, keeping the calls made for the items before it |
| `QuoteHook.RunStopsAtFailure` | src/EventSubscriber/QuoteCustomerResponseSubscriber.php:43-86 | items after a failure change nothing |
| `QuoteHook.CustomPriceUpdater.Sync` | src/EventSubscriber/QuoteCustomerResponseSubscriber.php:83 | each `sync` call is logged with its operations |
| `QuoteHook.CustomPriceUpdater.constructor` | src/EventSubscriber/QuoteCustomerResponseSubscriber.php:15 | the updater starts with no sync calls |
| `QuoteHook.QuoteCustomerResponseSubscriber.constructor` | src/EventSubscriber/QuoteCustomerResponseSubscriber.php:20-29 | the subscriber keeps the updater and the product repository it is given |
| `QuoteHook.QuoteCustomerResponseSubscriber.QuoteAccepted` | src/EventSubscriber/QuoteCustomerResponseSubscriber.php:38-87 | the updater receives exactly the run's sync calls, and the handler fails exactly when the run does |
| `QuoteLineItems.Columns` | src/Resources/app/administration/src/main.js:7-18 | the grid's columns are the base columns, in order, with the "Quote Price" column in front |
| `QuoteLineItems.LineItem.constructor` | src/Resources/app/administration/src/main.js:20-29 | a line item with the given custom fields, or none |
| `QuoteLineItems.PersistPriceOf` | src/Resources/app/administration/src/main.js:22 | the flag is false when the custom fields or the key are missing or null, and the stored value otherwise |
| `QuoteLineItems.GetPersistPrice` | src/Resources/app/administration/src/main.js:21-23 | a missing item reads as false; otherwise its custom fields' flag |
| `QuoteLineItems.WithPersistPrice` | src/Resources/app/administration/src/main.js:25-28 | the key holds the value, and the other keys are those already there, or none when there were no custom fields |
| `QuoteLineItems.GetAfterSet` | src/Resources/app/administration/src/main.js:21-29 | after setting a non-null value the getter returns it; after setting null it returns false |
| `QuoteLineItems.SetKeepsOthers` | src/Resources/app/administration/src/main.js:28 | every other custom field keeps its value |
| `QuoteLineItems.SetPersistPrice` | src/Resources/app/administration/src/main.js:24-29 | the item's custom fields become the old ones, or an empty object, with the key set |

## Left out

- File and browser I/O are not modelled.
  - `triggerFileUpload`, and the `FileReader` and timer in `handleFileUpload`.
  - The Blob, object URL, download link and date-stamped file name of
    `exportCSV`.
  - The model starts from the file's text and ends with the CSV content.
- Vue plumbing is not modelled.
  - `$emit`, `$nextTick` and `created()`.
  - The watchers that call `fetchExistingPrice` when the selection changes.
  - Console logging.
- Notifications are kept only as their kind. Titles and messages are not
  modelled.
  - On the list page they are a list of notices.
  - In the CSV component the import's success or error is the boolean result.
- Floating-point arithmetic is not interpreted.
  - `parseFloat`, `toFixed(2)` and `number_format` are opaque host functions.
  - gross = net × (1 + rate/100), and the quote hook's net, are exact real
    arithmetic.
  - The quote hook's `!=` on floats is equality of reals.
- Host search semantics are reduced to keyed lookups.
  - The criteria searches by customer id, by product number and by
    (customer, product) are exact lookups.
  - "Newest first" is the reverse of creation order.
  - The list page's page window is cut out of the whole list.
- Races between concurrent edits are not modelled. The read-then-write
  upsert is sequential.
- PriceList.ListPage.OnPageChange: keeps the source's integer parsing only
  for integer arguments. `parseInt` of text or of fractional numbers is not
  modelled.
- The catalog lookups never fail. The customer and product searches of the
  import and the product and tax gets of both save paths find a record or
  nothing; a rejected call is not modelled, so the import's abort and the
  form's error notice are reached only through a missing product or tax or
  an unavailable custom-price repository. These members carry that gap:
- CsvData.ResolveCustomer: the customer search (sw-data-csv/index.js:83)
  cannot reject.
- CsvData.ResolveProduct: the product search (sw-data-csv/index.js:91)
  cannot reject.
- CsvData.ImportTaxRate: the product and tax gets
  (sw-data-csv/index.js:100-101) fail only by not finding.
- CsvData.CsvComponent.SaveCustomPrice: fails only through a missing
  product or tax or the custom-price repository, not through a rejected
  product or tax get.
- CsvData.CsvComponent.ProcessCsvData: the abort path of its `catch`
  (sw-data-csv/index.js:70-75) is not reached by a rejected customer or
  product search.
- PriceList.FormTaxRate: the product and tax gets
  (customer-specific-price-list/index.js:200-201) fail only by not finding.
- PriceList.FormSaveSpec: fails only through a missing product or the
  custom-price repository, not through a rejected product or tax get.
- PriceList.ListPage.SaveForm: the same gap as `FormSaveSpec`.
- PriceList.ListPage.AddOrUpdateCustomPrice: its error notice
  (customer-specific-price-list/index.js:241-242) is not reached by a
  rejected product or tax get.
- The price reads use the corrected path `price[0].price[0]` (see
  "## Findings"), not the path the source reads. These members carry it:
- CsvData.ExportNet: reads the corrected path; the source's export writes
  "N/A" for every stored price (`ExportNetAsWritten`).
- CsvData.ExportTable: its lines use `ExportNet`, not the source's
  `ExportNetAsWritten`.
- CsvData.ExportCsv: its content uses the corrected read, not
  `ExportCsvAsWritten`.
- CsvData.CsvComponent.ExportCsvFile: exports with the corrected read, not
  `ExportCsvAsWritten`. It also returns every record: the source's search
  uses a `Criteria` without arguments (sw-data-csv/index.js:143), which the
  platform pages at its default size, so the source exports only the first
  page.
- PriceList.ListAmount: reads the corrected path, and shows stored text as
  it is. At that path the source's `net?.toFixed(2)` would throw a
  TypeError on the text "10.00" every administration writer stores
  (`AmountCellAsWritten`).
- PriceList.ToRow: its net and gross are `ListAmount`, not the source's
  `ListAmountAsWritten`.
- PriceList.ListRows: its rows are `ToRow` rows, with the corrected read.
- PriceList.Fetch: its rows are `ListRows`, with the corrected read.
- PriceList.ListPage.FetchCustomPrices: the list it shows uses the
  corrected read of `Fetch`.
- PriceList.ExistingAmount: reads the corrected path; the source loads
  NaN for every stored price (`ExistingAmountAsWritten`).
- PriceList.ListPage.FetchExistingPrice: loads `ExistingAmount`, not the
  source's `ExistingAmountAsWritten`.
- PriceStore.Repository.SearchAll: returns every record. The export's
  search without a page size is paged by the platform's default, which is
  platform code and not part of this model.
- The list's `created_at` column (a locale date) and the grid's column
  definitions are not modelled.
- QuoteHook.CurrencyPrice: follows the platform's price-collection lookup,
  which falls back to the default currency.
  - That lookup is platform code and not part of this model.
- QuoteHook.QuoteCustomerResponseSubscriber.QuoteAccepted: treats every
  `sync` call as succeeding. The updater's own failures are not modelled.
- `getOrderDetailsById` is never called, so it is not modelled.
- The customer and product select components are not part of this model.
- Module registration and the test bootstrap are not part of this model.

## Findings

| source | as written | input that shows it | evidently intended | confidence | as-written member | corrected member |
|---|---|---|---|---|---|---|
| src/Resources/app/administration/src/module/customer-specific-price/components/sw-data-csv/index.js:163-170 | export requires `price[0]` to be an array and reads `price[0][0].net` | any record saved by `saveCustomPrice` or the list page: `price` is `[{quantityStart: 1, quantityEnd: null, price: [{net: "10.00", …}]}]`, so `price[0]` is an object | read `price[0].price[0].net` | not executed | `CsvData.ExportNetAsWrittenMissesTiers` | `CsvData.ExportNetReadsTier` |
| src/Resources/app/administration/src/module/customer-specific-price/components/sw-data-csv/index.js:149-176 | every exported price cell is "N/A", so re-importing the exported file saves nothing | the same records, exported and then imported | the export re-imports its own prices | not executed | `CsvData.AsWrittenExportDoesNotReimport` | `CsvData.ExportThenParse` |
| src/Resources/app/administration/src/module/customer-specific-price/page/customer-specific-price-list/index.js:143-144 | the list reads `price?.[0]?.[0]?.net` and `gross` | the same records: `price[0][0]` is undefined, so net and gross show "N/A" | read `price[0].price[0].net` and `gross` | not executed | `PriceList.ListAmountAsWrittenMissesTiers` | `PriceList.ListAmountReadsTier` |
| src/Resources/app/administration/src/module/customer-specific-price/page/customer-specific-price-list/index.js:183 | `fetchExistingPrice` reads `price?.[0]?.[0]?.net` | an existing price for the selected pair: the amount becomes `parseFloat(null)`, NaN | load the stored net | not executed | `PriceList.ExistingAmountAsWrittenIsNaN` | `PriceList.ExistingAmountReadsTier` |

The rest of the model uses the corrected reads:

- `ExportTable` and `CsvComponent.ExportCsvFile` read the export's net from
  the tier.
- `ToRow` reads the list's net and gross from the tier.
- `ListPage.FetchExistingPrice` reads the form's amount from the tier.
