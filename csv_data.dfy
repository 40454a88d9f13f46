/** The import and export side of the `sw-data-csv` component: the row loop
    of `processCSVData`, the keyed upsert of `saveCustomPrice`, and the
    lines `exportCSV` writes. */
module CsvData {
  import opened Common
  import opened Text
  import opened CsvParse
  import opened PriceStore

  // ---------------------------------------------------------------- import

  /** `getCustomerUUID(row["Customer ID"])`: the customer with that id. */
  function ResolveCustomer(cat: Catalog, row: Row): Option<Id>
  {
    if CustomerIdColumn in row && row[CustomerIdColumn] in cat.customers
    then Some(row[CustomerIdColumn]) else None
  }

  /** `getProductUUID(row["SKU"])`: the product with that product number. */
  function ResolveProduct(cat: Catalog, row: Row): Option<Id>
  {
    if SkuColumn in row && row[SkuColumn] in cat.productBySku
    then Some(cat.productBySku[row[SkuColumn]]) else None
  }

  /** `parseFloat(row["Custom WS Price"])`; None is NaN. */
  function RowPrice(host: Host, row: Row): Option<real>
  {
    if PriceColumn in row then host.parseFloat(row[PriceColumn]) else None
  }

  /** The save a row triggers: `customerId && productId && !isNaN(price)`. */
  function RowSave(cat: Catalog, host: Host, row: Row): (r: Option<(Id, Id, real)>)
    ensures r.Some? <==> && ResolveCustomer(cat, row).Some? && ResolveCustomer(cat, row).value != ""
                         && ResolveProduct(cat, row).Some? && ResolveProduct(cat, row).value != ""
                         && RowPrice(host, row).Some?
    ensures r.Some? ==> r.value == (ResolveCustomer(cat, row).value, ResolveProduct(cat, row).value,
                                    RowPrice(host, row).value)
  {
    match (ResolveCustomer(cat, row), ResolveProduct(cat, row), RowPrice(host, row))
    case (Some(c), Some(p), Some(x)) => if c != "" && p != "" then Some((c, p, x)) else None
    case _ => None
  }

  /** The tax rate `saveCustomPrice` reads: the product and its tax must
      both be found, or reading a property of null throws. */
  function ImportTaxRate(cat: Catalog, p: Id): Result<real>
  {
    if p !in cat.products then Err(TypeError)
    else match cat.products[p].taxId
      case None => Err(TypeError)
      case Some(t) => if t in cat.taxRates then Ok(cat.taxRates[t]) else Err(TypeError)
  }

  /** `saveCustomPrice(customerId, productId, netPrice)` on the store value. */
  function SaveSpec(s: Store, online: bool, cat: Catalog, host: Host, c: Id, p: Id, net: real): Result<Store>
  {
    match ImportTaxRate(cat, p)
    case Err(e) => Err(e)
    case Ok(rate) =>
      if !online then Err(HostFailure) else Ok(Upsert(s, c, p, FlatPrice(host, net, rate)))
  }

  /** The store after some rows, and whether a save threw and ended the loop. */
  datatype ImportRun = ImportRun(store: Store, failed: bool)

  function ImportStep(s: Store, online: bool, cat: Catalog, host: Host, row: Row): ImportRun
  {
    match RowSave(cat, host, row)
    case None => ImportRun(s, false)
    case Some((c, p, net)) =>
      match SaveSpec(s, online, cat, host, c, p, net)
      case Ok(t) => ImportRun(t, false)
      case Err(_) => ImportRun(s, true)
  }

  /** The `for` loop of `processCSVData`: rows in file order, each saved or
      skipped; the first save that throws ends the loop. */
  function ImportRows(s: Store, online: bool, cat: Catalog, host: Host, rows: seq<Row>): ImportRun
    decreases |rows|
  {
    if rows == [] then ImportRun(s, false)
    else
      var prev := ImportRows(s, online, cat, host, rows[..|rows| - 1]);
      if prev.failed then prev else ImportStep(prev.store, online, cat, host, rows[|rows| - 1])
  }

  /** One more row: the run so far, then that row's step unless a save
      has already thrown. */
  lemma ImportRowsNext(s: Store, online: bool, cat: Catalog, host: Host, rows: seq<Row>, i: nat)
    requires i < |rows|
    ensures var prev := ImportRows(s, online, cat, host, rows[..i]);
            ImportRows(s, online, cat, host, rows[..i + 1])
            == if prev.failed then prev else ImportStep(prev.store, online, cat, host, rows[i])
  {
    assert rows[..i + 1][..i] == rows[..i];
    assert rows[..i + 1][i] == rows[i];
  }

  /** Once a save has thrown, later rows change nothing. */
  lemma {:induction false} ImportFailureAbsorbs(s: Store, online: bool, cat: Catalog, host: Host, rows: seq<Row>, k: nat, n: nat)
    requires k <= n <= |rows|
    requires ImportRows(s, online, cat, host, rows[..k]).failed
    ensures ImportRows(s, online, cat, host, rows[..n]) == ImportRows(s, online, cat, host, rows[..k])
  {
    if n > k {
      ImportFailureAbsorbs(s, online, cat, host, rows, k, n - 1);
      assert rows[..n][..n - 1] == rows[..n - 1];
    }
  }

  /** The (customer, product, price) upserts the rows ask for, in file order. */
  function Planned(cat: Catalog, host: Host, rows: seq<Row>): seq<(Id, Id, Json)>
    decreases |rows|
  {
    if rows == [] then []
    else
      var prev := Planned(cat, host, rows[..|rows| - 1]);
      match RowSave(cat, host, rows[|rows| - 1])
      case None => prev
      case Some((c, p, net)) =>
        match ImportTaxRate(cat, p)
        case Err(_) => prev
        case Ok(rate) => prev + [(c, p, FlatPrice(host, net, rate))]
  }

  /** A sequence of upserts, first to last. */
  function UpsertAll(s: Store, saves: seq<(Id, Id, Json)>): Store
    decreases |saves|
  {
    if saves == [] then s
    else
      var last := saves[|saves| - 1];
      Upsert(UpsertAll(s, saves[..|saves| - 1]), last.0, last.1, last.2)
  }

  /** The price of the last upsert for the pair, if any. */
  function LastFor(saves: seq<(Id, Id, Json)>, c: Id, p: Id): Option<Json>
    decreases |saves|
  {
    if saves == [] then None
    else if saves[|saves| - 1].0 == c && saves[|saves| - 1].1 == p then Some(saves[|saves| - 1].2)
    else LastFor(saves[..|saves| - 1], c, p)
  }

  /** An import that ran to the end performed exactly the planned upserts. */
  lemma {:induction false} ImportIsUpsertAll(s: Store, online: bool, cat: Catalog, host: Host, rows: seq<Row>)
    requires !ImportRows(s, online, cat, host, rows).failed
    ensures ImportRows(s, online, cat, host, rows).store == UpsertAll(s, Planned(cat, host, rows))
  {
    if rows != [] {
      var init := rows[..|rows| - 1];
      ImportIsUpsertAll(s, online, cat, host, init);
      var plannedInit := Planned(cat, host, init);
      var planned := Planned(cat, host, rows);
      match RowSave(cat, host, rows[|rows| - 1])
      case None =>
      case Some((c, p, net)) =>
        match ImportTaxRate(cat, p)
        case Err(_) =>
        case Ok(rate) =>
          assert planned[..|planned| - 1] == plannedInit;
    }
  }

  /** However many rows name a pair, the pair ends up with one record, and
      it holds the price of the last of them; pairs no row names keep the
      record they had. */
  lemma {:induction false} UpsertAllLastWins(s: Store, saves: seq<(Id, Id, Json)>, c: Id, p: Id)
    requires Valid(s)
    ensures Valid(UpsertAll(s, saves))
    ensures LastFor(saves, c, p).Some? ==>
              && Lookup(UpsertAll(s, saves).records, c, p).Some?
              && Lookup(UpsertAll(s, saves).records, c, p).value.price == LastFor(saves, c, p).value
    ensures LastFor(saves, c, p).None? ==>
              Lookup(UpsertAll(s, saves).records, c, p) == Lookup(s.records, c, p)
  {
    if saves != [] {
      var init := saves[..|saves| - 1];
      var last := saves[|saves| - 1];
      UpsertAllLastWins(s, init, c, p);
      var u := UpsertAll(s, init);
      UpsertValid(u, last.0, last.1, last.2);
      if last.0 == c && last.1 == p {
        UpsertFinds(u, c, p, last.2);
      } else {
        UpsertOtherPair(u, last.0, last.1, last.2, c, p);
      }
    }
  }

  /** Importing keeps the store's invariant: re-importing a pair never adds
      a second record for it, and the last row for a pair wins. */
  lemma ImportLastRowWins(s: Store, online: bool, cat: Catalog, host: Host, rows: seq<Row>, c: Id, p: Id)
    requires Valid(s)
    requires !ImportRows(s, online, cat, host, rows).failed
    ensures var t := ImportRows(s, online, cat, host, rows).store;
            && Valid(t)
            && (LastFor(Planned(cat, host, rows), c, p).Some? ==>
                  && Lookup(t.records, c, p).Some?
                  && Lookup(t.records, c, p).value.price == LastFor(Planned(cat, host, rows), c, p).value)
            && (LastFor(Planned(cat, host, rows), c, p).None? ==>
                  Lookup(t.records, c, p) == Lookup(s.records, c, p))
  {
    ImportIsUpsertAll(s, online, cat, host, rows);
    UpsertAllLastWins(s, Planned(cat, host, rows), c, p);
  }

  // ---------------------------------------------------------------- export

  const ExportColumns: seq<string> :=
    ["Customer ID", "Customer Tier Name", "SKU", "Product Name", "Custom MSRP", "Custom WS Price"]

  /** The net column as `exportCSV` computes it: it looks for a nested
      array at `price[0]`, so a tier object there is never read. Reading
      `.net` of a null `price[0][0]` throws. */
  function ExportNetAsWritten(price: Json, host: Host): Result<string>
  {
    match price
    case JArr(items) =>
      if |items| > 0 && items[0].JArr? && |items[0].items| > 0 then
        var cell := items[0].items[0];
        if cell.JNull? then Err(TypeError)
        else
          var net := Member(Some(cell), "net");
          if Truthy(net) then Ok(ToText(net.value, host)) else Ok("0.00")
      else Ok("N/A")
    case _ => Ok("N/A")
  }

  /** The net column read where the writers put it: `price[0].price[0].net`,
      "0.00" when that is falsy, "N/A" when there is no tier. */
  function ExportNet(price: Json, host: Host): string
  {
    if price.JArr? && |price.items| > 0 then
      var net := TierAmount(price, "net");
      if Truthy(net) then ToText(net.value, host) else "0.00"
    else "N/A"
  }

  /** The six cells of a record's line, before the net column. */
  function ExportCells(cat: Catalog, rec: CustomPrice, net: string): (cells: seq<string>)
    ensures |cells| == 6 && cells[4] == "" && cells[5] == net
  {
    var customerId := if rec.customerId.Some? && rec.customerId.value != "" then rec.customerId.value else "N/A";
    var customer := if rec.customerId.Some? && rec.customerId.value in cat.customers
                    then Some(cat.customers[rec.customerId.value]) else None;
    var customerName := if customer.Some? then customer.value.firstName + " " + customer.value.lastName
                        else "Unknown Customer";
    var product := if rec.productId.Some? && rec.productId.value in cat.products
                   then Some(cat.products[rec.productId.value]) else None;
    var sku := if product.Some? && product.value.productNumber.Some? && product.value.productNumber.value != ""
               then product.value.productNumber.value else "N/A";
    var productName := if product.Some? && product.value.name.Some? && product.value.name.value != ""
                       then "\"" + product.value.name.value + "\"" else "Unknown Product";
    [customerId, "\"" + customerName + "\"", sku, productName, "", net]
  }

  /** Each row of cells as one comma-joined line. */
  function JoinLines(table: seq<seq<string>>): (lines: seq<string>)
    ensures |lines| == |table|
    ensures forall k :: 0 <= k < |table| ==> lines[k] == Join(table[k], ',')
  {
    if table == [] then [] else [Join(table[0], ',')] + JoinLines(table[1..])
  }

  /** A file of a header line followed by one line per row of cells. */
  function CsvText(headers: seq<string>, table: seq<seq<string>>): string
  {
    Join(headers, ',') + "\n" + Join(JoinLines(table), '\n')
  }

  /** The cells of every record's line, in store order. */
  function ExportTable(cat: Catalog, host: Host, records: seq<CustomPrice>): (t: seq<seq<string>>)
    ensures |t| == |records|
    ensures forall k :: 0 <= k < |records| ==>
              t[k] == ExportCells(cat, records[k], ExportNet(records[k].price, host))
  {
    if records == [] then []
    else [ExportCells(cat, records[0], ExportNet(records[0].price, host))] + ExportTable(cat, host, records[1..])
  }

  /** `exportCSV`'s file content: nothing for an empty store, otherwise the
      header line "Customer ID,Customer Tier Name,SKU,Product Name,Custom
      MSRP,Custom WS Price" and one line per record. */
  function ExportCsv(cat: Catalog, host: Host, records: seq<CustomPrice>): (r: Option<string>)
    ensures r.None? <==> records == []
  {
    if records == [] then None
    else Some(CsvText(ExportColumns, ExportTable(cat, host, records)))
  }

  /** The same cells with the net column as the source computes it; the
      `map` stops at the first record whose line throws. */
  function ExportTableAsWritten(cat: Catalog, host: Host, records: seq<CustomPrice>): Result<seq<seq<string>>>
  {
    if records == [] then Ok([])
    else match (ExportNetAsWritten(records[0].price, host), ExportTableAsWritten(cat, host, records[1..]))
      case (Err(e), _) => Err(e)
      case (_, Err(e)) => Err(e)
      case (Ok(net), Ok(rest)) => Ok([ExportCells(cat, records[0], net)] + rest)
  }

  function ExportCsvAsWritten(cat: Catalog, host: Host, records: seq<CustomPrice>): Result<Option<string>>
  {
    if records == [] then Ok(None)
    else match ExportTableAsWritten(cat, host, records)
      case Err(e) => Err(e)
      case Ok(t) => Ok(Some(CsvText(ExportColumns, t)))
  }

  /** As written, the net column is "N/A" for every price stored as a tier
      list, which is what every writer stores. */
  lemma ExportNetAsWrittenMissesTiers(ts: seq<Tier>, host: Host)
    ensures ExportNetAsWritten(TiersJson(ts), host) == Ok("N/A")
  {
    if ts != [] {
      assert TierListJson(ts)[0] == TierJson(ts[0]);
    }
  }

  /** Corrected, the net column is the net the writer stored. */
  lemma ExportNetReadsTier(currencyId: Id, net: string, gross: Json, host: Host)
    requires net != ""
    ensures ExportNet(TiersJson(FlatTier(currencyId, JStr(net), gross)), host) == net
  {
  }

  /** A price field that decodes as a tier list is an array whose first
      element, if any, is an object. */
  lemma NoOtherJsonDecodes(j: Json)
    requires DecodeTiers(j).Some?
    ensures j.JArr? && (|j.items| > 0 ==> j.items[0].JObj?)
  {
  }

  /** As written, every line of a store of tier lists has "N/A" as its net. */
  lemma {:induction false} AsWrittenTableIsNA(cat: Catalog, host: Host, records: seq<CustomPrice>)
    requires forall k :: 0 <= k < |records| ==> DecodeTiers(records[k].price).Some?
    ensures ExportTableAsWritten(cat, host, records).Ok?
    ensures |ExportTableAsWritten(cat, host, records).value| == |records|
    ensures forall k :: 0 <= k < |records| ==>
              ExportTableAsWritten(cat, host, records).value[k] == ExportCells(cat, records[k], "N/A")
  {
    if records != [] {
      AsWrittenTableIsNA(cat, host, records[1..]);
      AsWrittenNetIsNA(records[0].price, host);
    }
  }

  /** As written, the net of any stored tier list reads as "N/A". */
  lemma AsWrittenNetIsNA(price: Json, host: Host)
    requires DecodeTiers(price).Some?
    ensures ExportNetAsWritten(price, host) == Ok("N/A")
  {
    NoOtherJsonDecodes(price);
  }

  // ----------------------------------------------------- export, re-import

  /** The cells of an exported line survive splitting and trimming. */
  predicate CleanCell(cell: string)
  {
    ',' !in cell && '\n' !in cell && IsTrimmed(cell)
  }

  /** A character absent from every part and from the separator is absent
      from their join. */
  lemma {:induction false} JoinKeepsOut(parts: seq<string>, sep: char, c: char)
    requires c != sep
    requires forall i :: 0 <= i < |parts| ==> c !in parts[i]
    ensures c !in Join(parts, sep)
  {
    if |parts| > 1 {
      JoinKeepsOut(parts[1..], sep, c);
    }
  }

  /** No two header names are equal. */
  predicate Distinct(headers: seq<string>)
  {
    forall i, j :: 0 <= i < j < |headers| ==> headers[i] != headers[j]
  }

  /** The export's column names are distinct and clean, and three of them
      are the columns the import reads. */
  lemma ExportColumnsFacts()
    ensures |ExportColumns| == 6 && Distinct(ExportColumns)
    ensures forall i :: 0 <= i < 6 ==> CleanCell(ExportColumns[i])
    ensures ExportColumns[0] == CustomerIdColumn && ExportColumns[2] == SkuColumn
            && ExportColumns[5] == PriceColumn
  {
    var names := ExportColumns;
    forall i | 0 <= i < 6 ensures CleanCell(names[i]) {
      ColumnClean(names[i]);
    }
    assert names[0][1] == 'u' && names[1][1] == 'u' && names[2][1] == 'K' && names[3][1] == 'r'
           && names[4][1] == 'u' && names[5][1] == 'u';
    assert |names[0]| == 11 && |names[1]| == 18 && |names[4]| == 11 && |names[5]| == 15;
    assert names[0][7] == 'r' && names[4][7] == 'M';
  }

  /** A header name of letters and inner spaces is a clean cell. */
  lemma ColumnClean(name: string)
    requires name in ExportColumns
    ensures CleanCell(name)
  {
  }

  /** A comma-joined line of clean cells has no line break, splits back
      into its cells, and its cells trim to themselves. */
  lemma CleanJoinSplits(parts: seq<string>)
    requires |parts| >= 1
    requires forall i :: 0 <= i < |parts| ==> CleanCell(parts[i])
    ensures '\n' !in Join(parts, ',')
    ensures Split(Join(parts, ','), ',') == parts
    ensures TrimAll(parts) == parts
  {
    JoinKeepsOut(parts, ',', '\n');
    SplitJoin(parts, ',');
    forall i | 0 <= i < |parts| ensures Trim(parts[i]) == parts[i] {
      TrimOfTrimmed(parts[i]);
    }
  }

  /** A clean cell reads back as itself. */
  lemma CleanField(cells: seq<string>, i: nat)
    requires i < |cells| && CleanCell(cells[i])
    ensures Field(cells, i) == cells[i]
  {
    TrimOfTrimmed(cells[i]);
  }

  /** Under distinct header names every header is the last with its name. */
  lemma DistinctLast(headers: seq<string>, i: nat)
    requires i < |headers| && Distinct(headers)
    ensures LastAt(headers, |headers|, i)
  {
  }

  /** Under distinct header names, a clean line with one cell per header
      reads back as the object mapping each header to its cell. */
  lemma CleanLineParses(headers: seq<string>, cells: seq<string>)
    requires |cells| == |headers| >= 1
    requires Distinct(headers)
    requires forall i :: 0 <= i < |cells| ==> CleanCell(cells[i])
    ensures var row := RowOf(headers, Join(cells, ','));
            forall i :: 0 <= i < |headers| ==> row[headers[i]] == cells[i]
  {
    CleanJoinSplits(cells);
    var row := Reduce(headers, cells, |headers|);
    assert RowOf(headers, Join(cells, ',')) == row;
    forall i | 0 <= i < |headers| ensures row[headers[i]] == cells[i] {
      DistinctLast(headers, i);
      ReduceLast(headers, cells, |headers|, i);
      CleanField(cells, i);
    }
  }

  /** The lines of a file of clean cells are its header line and its rows'
      lines. */
  lemma CleanCsvLines(headers: seq<string>, table: seq<seq<string>>)
    requires |headers| >= 1 && |table| >= 1
    requires forall i :: 0 <= i < |headers| ==> CleanCell(headers[i])
    requires forall k :: 0 <= k < |table| ==>
               |table[k]| >= 1 && forall i :: 0 <= i < |table[k]| ==> CleanCell(table[k][i])
    ensures Split(CsvText(headers, table), '\n') == [Join(headers, ',')] + JoinLines(table)
  {
    var header := Join(headers, ',');
    var lines := JoinLines(table);
    CleanJoinSplits(headers);
    forall k | 0 <= k < |lines| ensures '\n' !in lines[k] {
      CleanJoinSplits(table[k]);
    }
    var all := [header] + lines;
    assert CsvText(headers, table) == Join(all, '\n') by {
      JoinAppend([header], lines, '\n');
    }
    forall i | 0 <= i < |all| ensures '\n' !in all[i] {
      if i > 0 { assert all[i] == lines[i - 1]; }
    }
    SplitJoin(all, '\n');
  }

  /** The header line of such a file reads back as its headers. */
  lemma CleanCsvHeaders(headers: seq<string>, table: seq<seq<string>>)
    requires |headers| >= 1 && |table| >= 1
    requires forall i :: 0 <= i < |headers| ==> CleanCell(headers[i])
    requires forall k :: 0 <= k < |table| ==>
               |table[k]| >= 1 && forall i :: 0 <= i < |table[k]| ==> CleanCell(table[k][i])
    ensures Headers(CsvText(headers, table)) == headers
    ensures |DataRows(CsvText(headers, table))| == |table|
  {
    CleanCsvLines(headers, table);
    CleanJoinSplits(headers);
  }

  /** Row k of such a file is row k of its table. */
  lemma CleanRowParses(headers: seq<string>, table: seq<seq<string>>, k: nat)
    requires |headers| >= 1 && Distinct(headers) && k < |table|
    requires forall i :: 0 <= i < |headers| ==> CleanCell(headers[i])
    requires forall k :: 0 <= k < |table| ==>
               |table[k]| == |headers| && forall i :: 0 <= i < |headers| ==> CleanCell(table[k][i])
    ensures Headers(CsvText(headers, table)) == headers
    ensures |DataRows(CsvText(headers, table))| == |table|
    ensures forall i :: 0 <= i < |headers| ==>
              headers[i] in DataRows(CsvText(headers, table))[k]
              && DataRows(CsvText(headers, table))[k][headers[i]] == table[k][i]
  {
    CleanRowLine(headers, table, k);
    var row := DataRows(CsvText(headers, table))[k];
    assert row == RowOf(headers, Join(table[k], ','));
    CleanLineParses(headers, table[k]);
  }

  /** Object k of such a file is that of row k's joined cells. */
  lemma CleanRowLine(headers: seq<string>, table: seq<seq<string>>, k: nat)
    requires |headers| >= 1 && k < |table|
    requires forall i :: 0 <= i < |headers| ==> CleanCell(headers[i])
    requires forall k :: 0 <= k < |table| ==>
               |table[k]| == |headers| && forall i :: 0 <= i < |headers| ==> CleanCell(table[k][i])
    ensures Headers(CsvText(headers, table)) == headers
    ensures |DataRows(CsvText(headers, table))| == |table|
    ensures DataRows(CsvText(headers, table))[k] == RowOf(headers, Join(table[k], ','))
  {
    var csv := CsvText(headers, table);
    CleanCsvHeaders(headers, table);
    CleanCsvLines(headers, table);
    var lines := Split(csv, '\n');
    assert lines[1..][k] == Join(table[k], ',');
    RowsOfAt(headers, lines[1..], k);
  }

  /** A file of clean cells under distinct clean headers reads back as its
      table: one object per row, each header mapped to the row's cell. */
  lemma CleanCsvParses(headers: seq<string>, table: seq<seq<string>>)
    requires |headers| >= 1 && Distinct(headers) && |table| >= 1
    requires forall i :: 0 <= i < |headers| ==> CleanCell(headers[i])
    requires forall k :: 0 <= k < |table| ==>
               |table[k]| == |headers| && forall i :: 0 <= i < |headers| ==> CleanCell(table[k][i])
    ensures Headers(CsvText(headers, table)) == headers
    ensures |DataRows(CsvText(headers, table))| == |table|
    ensures forall k, i :: 0 <= k < |table| && 0 <= i < |headers| ==>
              DataRows(CsvText(headers, table))[k][headers[i]] == table[k][i]
  {
    CleanCsvHeaders(headers, table);
    forall k | 0 <= k < |table|
      ensures forall i :: 0 <= i < |headers| ==>
              headers[i] in DataRows(CsvText(headers, table))[k]
              && DataRows(CsvText(headers, table))[k][headers[i]] == table[k][i]
    {
      CleanRowParses(headers, table, k);
    }
  }

  /** A line of six clean cells with a customer id, a SKU and a net. */
  predicate CleanLine(cells: seq<string>)
  {
    && |cells| == 6 && (forall i :: 0 <= i < 6 ==> CleanCell(cells[i]))
    && cells[0] != "" && cells[2] != "" && cells[5] != ""
  }

  /** A filter that drops nothing returns its input. */
  lemma {:induction false} KeepAllComplete(rows: seq<Row>)
    requires forall k :: 0 <= k < |rows| ==> Complete(rows[k])
    ensures Keep(rows) == rows
  {
    if rows != [] {
      KeepAllComplete(rows[1..]);
    }
  }

  /** A table of six clean cells per row, with customer id, SKU and net
      present, parses back under the export header as one complete row per
      line carrying those three cells. */
  lemma ExportTableParses(table: seq<seq<string>>)
    requires |table| >= 1
    requires forall k :: 0 <= k < |table| ==> |table[k]| == 6 && CleanLine(table[k])
    ensures var rows := ParseCsv(CsvText(ExportColumns, table));
            && |rows| == |table|
            && forall k :: 0 <= k < |table| ==> HoldsImport(rows[k], table[k])
  {
    ExportColumnsFacts();
    ImportColumnsParse(ExportColumns, table);
  }

  /** The same for any six distinct clean headers that put the import's
      columns first, third and sixth. */
  lemma ImportColumnsParse(headers: seq<string>, table: seq<seq<string>>)
    requires |headers| == 6 && Distinct(headers) && |table| >= 1
    requires forall i :: 0 <= i < 6 ==> CleanCell(headers[i])
    requires headers[0] == CustomerIdColumn && headers[2] == SkuColumn && headers[5] == PriceColumn
    requires forall k :: 0 <= k < |table| ==> |table[k]| == 6 && CleanLine(table[k])
    ensures var rows := ParseCsv(CsvText(headers, table));
            && |rows| == |table|
            && forall k :: 0 <= k < |table| ==> HoldsImport(rows[k], table[k])
  {
    ImportedRows(headers, table);
    ParsedImport(CsvText(headers, table), table);
  }

  /** A file whose line objects all hold their row's import cells parses to
      exactly those objects. */
  lemma ParsedImport(csv: string, table: seq<seq<string>>)
    requires |DataRows(csv)| == |table|
    requires forall k :: 0 <= k < |DataRows(csv)| ==> HoldsImport(DataRows(csv)[k], table[k])
    ensures var rows := ParseCsv(csv);
            && |rows| == |table|
            && forall k :: 0 <= k < |table| ==> HoldsImport(rows[k], table[k])
  {
    var data := DataRows(csv);
    assert forall k :: 0 <= k < |data| ==> Complete(data[k]);
    KeepAllComplete(data);
    assert ParseCsv(csv) == data;
  }

  /** A complete object carrying a line's customer id, SKU and price. */
  predicate HoldsImport(row: Row, cells: seq<string>)
  {
    && |cells| == 6 && Complete(row)
    && row[CustomerIdColumn] == cells[0] && row[SkuColumn] == cells[2] && row[PriceColumn] == cells[5]
  }

  /** Every object of such a file holds its row's three import cells. */
  lemma ImportedRows(headers: seq<string>, table: seq<seq<string>>)
    requires |headers| == 6 && Distinct(headers) && |table| >= 1
    requires forall i :: 0 <= i < 6 ==> CleanCell(headers[i])
    requires headers[0] == CustomerIdColumn && headers[2] == SkuColumn && headers[5] == PriceColumn
    requires forall k :: 0 <= k < |table| ==> |table[k]| == 6 && CleanLine(table[k])
    ensures var data := DataRows(CsvText(headers, table));
            && |data| == |table|
            && forall k :: 0 <= k < |data| ==> HoldsImport(data[k], table[k])
  {
    var data := DataRows(CsvText(headers, table));
    CleanCsvHeaders(headers, table);
    forall k | 0 <= k < |data| ensures HoldsImport(data[k], table[k]) {
      ImportedRowAt(headers, table, k);
    }
  }

  /** Object k of such a file holds row k's three import cells. */
  lemma ImportedRowAt(headers: seq<string>, table: seq<seq<string>>, k: nat)
    requires |headers| == 6 && Distinct(headers) && k < |table|
    requires forall i :: 0 <= i < 6 ==> CleanCell(headers[i])
    requires headers[0] == CustomerIdColumn && headers[2] == SkuColumn && headers[5] == PriceColumn
    requires forall k :: 0 <= k < |table| ==> |table[k]| == 6 && CleanLine(table[k])
    ensures var data := DataRows(CsvText(headers, table));
            k < |data| && HoldsImport(data[k], table[k])
  {
    var data := DataRows(CsvText(headers, table));
    CleanRowParses(headers, table, k);
    var row, cells := data[k], table[k];
    assert forall i :: 0 <= i < 6 ==> headers[i] in row && row[headers[i]] == cells[i];
    ImportedRow(headers, row, cells);
  }

  /** An object mapping the headers to a clean line's cells is complete and
      carries the line's customer id, SKU and net. */
  lemma ImportedRow(headers: seq<string>, row: Row, cells: seq<string>)
    requires |headers| == 6 && CleanLine(cells)
    requires headers[0] == CustomerIdColumn && headers[2] == SkuColumn && headers[5] == PriceColumn
    requires forall i :: 0 <= i < 6 ==> headers[i] in row && row[headers[i]] == cells[i]
    ensures && CustomerIdColumn in row && row[CustomerIdColumn] == cells[0]
            && SkuColumn in row && row[SkuColumn] == cells[2]
            && PriceColumn in row && row[PriceColumn] == cells[5]
    ensures Complete(row)
  {
    assert headers[0] in row && row[headers[0]] == cells[0];
    assert headers[2] in row && row[headers[2]] == cells[2];
    assert headers[5] in row && row[headers[5]] == cells[5];
  }

  /** Export, then parse (net column corrected): when every cell is free of
      commas, line breaks and surrounding whitespace, and the customer id,
      SKU and net are not empty, the parsed file has one row per record, in
      order, carrying the record's customer id, SKU and stored net. */
  lemma ExportThenParse(cat: Catalog, host: Host, records: seq<CustomPrice>)
    requires records != []
    requires forall k :: 0 <= k < |records| ==>
               CleanLine(ExportCells(cat, records[k], ExportNet(records[k].price, host)))
    ensures var rows := ParseCsv(ExportCsv(cat, host, records).value);
            && |rows| == |records|
            && forall k :: 0 <= k < |records| ==>
                 HoldsImport(rows[k], ExportCells(cat, records[k], ExportNet(records[k].price, host)))
  {
    var table := ExportTable(cat, host, records);
    ExportTableParses(table);
    assert ExportCsv(cat, host, records).value == CsvText(ExportColumns, table);
  }

  /** Rows none of which triggers a save leave the store as it was. */
  lemma {:induction false} ImportSkipsAll(s: Store, online: bool, cat: Catalog, host: Host, rows: seq<Row>)
    requires forall k :: 0 <= k < |rows| ==> RowSave(cat, host, rows[k]).None?
    ensures ImportRows(s, online, cat, host, rows) == ImportRun(s, false)
  {
    if rows != [] {
      ImportSkipsAll(s, online, cat, host, rows[..|rows| - 1]);
    }
  }

  /** As written, exporting a store of tier lists and importing the file
      back changes nothing: every line's price is "N/A", which
      `parseFloat` reads as NaN, so every row is skipped. */
  lemma AsWrittenExportDoesNotReimport(s: Store, online: bool, cat: Catalog, host: Host, records: seq<CustomPrice>)
    requires records != []
    requires forall k :: 0 <= k < |records| ==> DecodeTiers(records[k].price).Some?
    requires host.parseFloat("N/A") == None
    requires forall k :: 0 <= k < |records| ==> CleanLine(ExportCells(cat, records[k], "N/A"))
    ensures ExportCsvAsWritten(cat, host, records).Ok?
    ensures ExportCsvAsWritten(cat, host, records).value.Some?
    ensures ImportRows(s, online, cat, host, ParseCsv(ExportCsvAsWritten(cat, host, records).value.value))
            == ImportRun(s, false)
  {
    AsWrittenTableIsNA(cat, host, records);
    var table := ExportTableAsWritten(cat, host, records).value;
    assert ExportCsvAsWritten(cat, host, records) == Ok(Some(CsvText(ExportColumns, table)));
    assert forall k :: 0 <= k < |table| ==> table[k] == ExportCells(cat, records[k], "N/A");
    ExportTableParses(table);
    var rows := ParseCsv(CsvText(ExportColumns, table));
    forall k | 0 <= k < |rows| ensures RowSave(cat, host, rows[k]).None? {
      NotANumberSkipped(cat, host, rows[k], table[k]);
    }
    ImportSkipsAll(s, online, cat, host, rows);
  }

  /** A row whose price cell is "N/A" is never saved when "N/A" does not
      parse. */
  lemma NotANumberSkipped(cat: Catalog, host: Host, row: Row, cells: seq<string>)
    requires host.parseFloat("N/A") == None
    requires |cells| == 6 && cells[5] == "N/A"
    requires PriceColumn in row && row[PriceColumn] == cells[5]
    ensures RowSave(cat, host, row).None?
  {
    assert RowPrice(host, row).None?;
  }

  // ---------------------------------------------------------------- component

  /** The `sw-data-csv` component: its flags and the repository it writes. */
  class CsvComponent {
    var isProcessing: bool
    var isExporting: bool
    const repo: Repository
    const catalog: Catalog

    constructor (repo: Repository, catalog: Catalog)
      ensures !isProcessing && !isExporting
      ensures this.repo == repo && this.catalog == catalog
    {
      isProcessing := false;
      isExporting := false;
      this.repo := repo;
      this.catalog := catalog;
    }

    /** `saveCustomPrice`: fetch the pair's record or create one with both
        ids, set its single flat tier, save it. */
    method SaveCustomPrice(host: Host, c: Id, p: Id, net: real) returns (r: Result<()>)
      requires Valid(repo.State())
      modifies repo
      ensures repo.online == old(repo.online)
      ensures var spec := SaveSpec(old(repo.State()), old(repo.online), catalog, host, c, p, net);
              && (r.Ok? <==> spec.Ok?)
              && repo.State() == (if spec.Ok? then spec.value else old(repo.State()))
      ensures Valid(repo.State())
    {
      var rate: real;
      match ImportTaxRate(catalog, p) {
        case Err(e) => return Err(e);
        case Ok(t) => rate := t;
      }
      var price := FlatPrice(host, net, rate);
      ghost var before := repo.State();
      SaveIsUpsert(before, c, p, price);
      UpsertValid(before, c, p, price);
      var found := repo.Search(c, p);
      if found.Err? {
        return Err(found.error);
      }
      var entity: CustomPrice;
      if found.value.Some? {
        entity := found.value.value;
      } else {
        entity := repo.Create();
        entity := entity.(customerId := Some(c), productId := Some(p));
      }
      entity := entity.(price := price);
      r := repo.Save(entity);
    }

    /** `processCSVData`: rows in order; a row whose customer, SKU and price
        all resolve is saved; the first save that throws ends the import. */
    method ProcessCsvData(host: Host, rows: seq<Row>) returns (ok: bool)
      requires Valid(repo.State())
      modifies repo
      ensures repo.online == old(repo.online)
      ensures var run := ImportRows(old(repo.State()), old(repo.online), catalog, host, rows);
              repo.State() == run.store && ok == !run.failed
      ensures Valid(repo.State())
    {
      ghost var s0 := repo.State();
      var i := 0;
      while i < |rows|
        invariant 0 <= i <= |rows|
        invariant repo.online == old(repo.online)
        invariant ImportRows(s0, repo.online, catalog, host, rows[..i]) == ImportRun(repo.State(), false)
        invariant Valid(repo.State())
      {
        var row := rows[i];
        ImportRowsNext(s0, repo.online, catalog, host, rows, i);
        var customerId := ResolveCustomer(catalog, row);
        var productId := ResolveProduct(catalog, row);
        var price := RowPrice(host, row);
        if && customerId.Some? && customerId.value != ""
           && productId.Some? && productId.value != ""
           && price.Some? {
          assert RowSave(catalog, host, row) == Some((customerId.value, productId.value, price.value));
          var r := SaveCustomPrice(host, customerId.value, productId.value, price.value);
          if r.Err? {
            ImportFailureAbsorbs(s0, repo.online, catalog, host, rows, i + 1, |rows|);
            assert rows[..|rows|] == rows;
            return false;
          }
        } else {
          assert RowSave(catalog, host, row).None?;
        }
        i := i + 1;
      }
      assert rows[..|rows|] == rows;
      ok := true;
    }

    /** The reader's `onload`: parse the file's text, then import its rows. */
    method ImportCsv(host: Host, csvData: string) returns (ok: bool)
      requires Valid(repo.State())
      modifies repo
      ensures var run := ImportRows(old(repo.State()), old(repo.online), catalog, host, ParseCsv(csvData));
              repo.State() == run.store && ok == !run.failed
      ensures Valid(repo.State())
    {
      var parsed := ParseCsv(csvData);
      ok := ProcessCsvData(host, parsed);
    }

    /** `exportCSV`, with the net column read from the stored tier. The flag
        is cleared on every path except a failed search, which throws. */
    method ExportCsvFile(host: Host) returns (content: Option<string>)
      modifies this`isExporting
      ensures repo.online ==> !isExporting && content == ExportCsv(catalog, host, repo.records)
      ensures !repo.online ==> isExporting && content.None?
    {
      isExporting := true;
      var found := repo.SearchAll();
      if found.Err? {
        return None;
      }
      if |found.value| == 0 {
        isExporting := false;
        return None;
      }
      content := ExportCsv(catalog, host, found.value);
      isExporting := false;
    }
  }
}
