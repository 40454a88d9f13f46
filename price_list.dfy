/** The `customer-specific-price-list` administration page: a paged list of
    the custom prices, newest first, a delete dialog, and a form that adds
    or updates the price of a (customer, product) pair. */
module PriceList {
  import opened Common
  import opened PriceStore
  import CsvData

  /** A number field of the form: `null`, `NaN`, or a number. */
  datatype Amount = NoAmount | NaN | Num(x: real)

  /** `parseFloat(text)` as an amount. */
  function ParseAmount(r: Option<real>): Amount
  {
    match r
    case None => NaN
    case Some(x) => Num(x)
  }

  /** JavaScript truthiness of an amount: `null`, `NaN` and 0 are falsy. */
  predicate AmountTruthy(a: Amount)
  {
    a.Num? && a.x != 0.0
  }

  /** JavaScript truthiness of an optional id. */
  predicate IdTruthy(v: Option<Id>)
  {
    v.Some? && v.value != ""
  }

  /** A notification shown to the user. */
  datatype Notice = Success(message: string) | Error(message: string)

  const FetchFailed: Notice := Error("Failed to fetch custom prices. Please try again.")
  const DeleteDone: Notice := Success("The custom price has been deleted successfully.")
  const DeleteFailed: Notice := Error("Failed to delete the custom price. Please try again.")
  const FieldsMissing: Notice := Error("Please enter all required fields.")
  const SaveFailed: Notice := Error("Failed to save the custom price.")

  function SaveDone(isUpdate: bool): Notice
  {
    Success(if isUpdate then "Custom price updated successfully." else "Custom price added successfully.")
  }

  // ------------------------------------------------------------- the list

  /** One line of the list. The creation date column is not modelled. */
  datatype ListRow = ListRow(
    id: RecordId,
    customerId: Option<Id>,
    customerName: string,
    productId: Option<Id>,
    product: string,
    netPrice: string,
    grossPrice: string)

  /** The records sorted by creation date, newest first. Records are added
      at the end of the store when created and stay in place when updated,
      so this is the store in reverse. */
  function Newest(records: seq<CustomPrice>): (r: seq<CustomPrice>)
    ensures |r| == |records|
    ensures forall i :: 0 <= i < |records| ==> r[i] == records[|records| - 1 - i]
  {
    if records == [] then [] else Newest(records[1..]) + [records[0]]
  }

  /** Page `page` of `limit` records (pages count from 1); the host rejects
      a page or limit below 1. */
  function PageOf(rs: seq<CustomPrice>, page: int, limit: int): (r: Result<seq<CustomPrice>>)
    ensures r.Ok? <==> page >= 1 && limit >= 1
    ensures r.Ok? ==> |r.value| <= limit
    ensures r.Ok? ==> forall i :: 0 <= i < |r.value| ==>
              (page - 1) * limit + i < |rs| && r.value[i] == rs[(page - 1) * limit + i]
  {
    if page < 1 || limit < 1 then Err(HostFailure)
    else
      var start := (page - 1) * limit;
      if start >= |rs| then Ok([])
      else if start + limit >= |rs| then Ok(rs[start..])
      else Ok(rs[start..start + limit])
  }

  /** Every record is on exactly the page its position says. */
  lemma PageOfIndex(rs: seq<CustomPrice>, i: nat, limit: int)
    requires i < |rs| && limit >= 1
    ensures var pg := PageOf(rs, i / limit + 1, limit);
            pg.Ok? && i % limit < |pg.value| && pg.value[i % limit] == rs[i]
  {
    var start := (i / limit) * limit;
    assert start + i % limit == i;
  }

  /** The customer name column: the customer's names, or "N/A". */
  function CustomerName(cat: Catalog, rec: CustomPrice): string
  {
    if rec.customerId.Some? && rec.customerId.value in cat.customers
    then cat.customers[rec.customerId.value].firstName + " " + cat.customers[rec.customerId.value].lastName
    else "N/A"
  }

  /** The product column: the translated name, else the name, else "N/A". */
  function ProductName(cat: Catalog, rec: CustomPrice): (r: string)
    ensures r != ""
  {
    if rec.productId.Some? && rec.productId.value in cat.products then
      var p := cat.products[rec.productId.value];
      if p.translatedName.Some? && p.translatedName.value != "" then p.translatedName.value
      else if p.name.Some? && p.name.value != "" then p.name.value
      else "N/A"
    else "N/A"
  }

  /** `v?.toFixed(2) || "N/A"` as written: a missing or null amount shows
      "N/A", a number its two-decimal text, and anything else has no
      `toFixed` and throws. */
  function AmountCellAsWritten(v: Option<Json>, host: Host): Result<string>
  {
    match v
    case None => Ok("N/A")
    case Some(JNull) => Ok("N/A")
    case Some(JNum(n)) => Ok(if host.toFixed2(n) != "" then host.toFixed2(n) else "N/A")
    case Some(_) => Err(TypeError)
  }

  /** The amount column as the list computes it: it reads `price[0][0]`. */
  function ListAmountAsWritten(price: Json, key: string, host: Host): Result<string>
  {
    AmountCellAsWritten(Member(At0(At0(Some(price))), key), host)
  }

  /** The amount column read where the writers put it, `price[0].price[0]`,
      showing a number with two decimals and the stored text as it is. */
  function ListAmount(price: Json, key: string, host: Host): (r: string)
    ensures r != ""
  {
    match TierAmount(price, key)
    case Some(JNum(n)) => if host.toFixed2(n) != "" then host.toFixed2(n) else "N/A"
    case Some(JStr(s)) => if s != "" then s else "N/A"
    case _ => "N/A"
  }

  function ToRow(cat: Catalog, host: Host, rec: CustomPrice): ListRow
  {
    ListRow(rec.id, rec.customerId, CustomerName(cat, rec), rec.productId, ProductName(cat, rec),
            ListAmount(rec.price, "net", host), ListAmount(rec.price, "gross", host))
  }

  /** The rows of a page, one per record, in order. */
  function ListRows(cat: Catalog, host: Host, records: seq<CustomPrice>): (rows: seq<ListRow>)
    ensures |rows| == |records|
    ensures forall i :: 0 <= i < |records| ==>
              && rows[i].id == records[i].id
              && rows[i].customerId == records[i].customerId
              && rows[i].productId == records[i].productId
              && rows[i] == ToRow(cat, host, records[i])
  {
    if records == [] then [] else [ToRow(cat, host, records[0])] + ListRows(cat, host, records[1..])
  }

  /** What a fetch shows: the rows of the requested page of the newest-first
      records and the number of all records, or the failure. */
  function Fetch(cat: Catalog, host: Host, records: seq<CustomPrice>, online: bool, page: int, limit: int)
    : (r: Result<(seq<ListRow>, nat)>)
    ensures r.Ok? <==> online && page >= 1 && limit >= 1
    ensures r.Ok? ==> r.value.1 == |records| && |r.value.0| <= limit
  {
    if !online then Err(HostFailure)
    else match PageOf(Newest(records), page, limit)
      case Err(e) => Err(e)
      case Ok(rs) => Ok((ListRows(cat, host, rs), |records|))
  }

  /** As written, the list shows "N/A" as the net and gross of every price
      stored as a tier list, which is what every writer stores. */
  lemma ListAmountAsWrittenMissesTiers(ts: seq<Tier>, key: string, host: Host)
    ensures ListAmountAsWritten(TiersJson(ts), key, host) == Ok("N/A")
  {
    if ts != [] {
      assert TierListJson(ts)[0] == TierJson(ts[0]);
    }
  }

  /** Corrected, the list shows the net and gross a writer stored. */
  lemma ListAmountReadsTier(currencyId: Id, net: string, gross: string, host: Host)
    requires net != "" && gross != ""
    ensures ListAmount(TiersJson(FlatTier(currencyId, JStr(net), JStr(gross))), "net", host) == net
    ensures ListAmount(TiersJson(FlatTier(currencyId, JStr(net), JStr(gross))), "gross", host) == gross
  {
  }

  // ------------------------------------------------------------- the form

  /** The amount `fetchExistingPrice` loads as written:
      `parseFloat(price?.[0]?.[0]?.net || null)`; `parseFloat(null)` is NaN. */
  function ExistingAmountAsWritten(price: Json, host: Host): Amount
  {
    var v := Member(At0(At0(Some(price))), "net");
    if Truthy(v) then ParseAmount(host.parseFloat(ToText(v.value, host))) else NaN
  }

  /** The amount read where the writers put it, `price[0].price[0].net`. */
  function ExistingAmount(price: Json, host: Host): Amount
  {
    var v := TierAmount(price, "net");
    if Truthy(v) then ParseAmount(host.parseFloat(ToText(v.value, host))) else NaN
  }

  /** As written, selecting a pair that has a price loads NaN, and the form
      refuses to save NaN. */
  lemma ExistingAmountAsWrittenIsNaN(ts: seq<Tier>, host: Host)
    ensures ExistingAmountAsWritten(TiersJson(ts), host) == NaN
    ensures !AmountTruthy(ExistingAmountAsWritten(TiersJson(ts), host))
  {
    if ts != [] {
      assert TierListJson(ts)[0] == TierJson(ts[0]);
    }
  }

  /** Corrected, the form loads the stored net. */
  lemma ExistingAmountReadsTier(currencyId: Id, net: string, gross: Json, host: Host)
    requires net != ""
    ensures ExistingAmount(TiersJson(FlatTier(currencyId, JStr(net), gross)), host)
            == ParseAmount(host.parseFloat(net))
  {
  }

  /** The tax rate `addOrUpdateCustomPrice` reads: reading `taxId` of a
      missing product throws; a missing tax id or tax counts as rate 0. */
  function FormTaxRate(cat: Catalog, p: Id): (r: Result<real>)
    ensures r.Err? <==> p !in cat.products
  {
    if p !in cat.products then Err(TypeError)
    else match cat.products[p].taxId
      case None => Ok(0.0)
      case Some(t) => if t != "" && t in cat.taxRates then Ok(cat.taxRates[t]) else Ok(0.0)
  }

  /** Where the import finds a tax rate under a non-empty tax id, the form
      finds the same one, so both store the same price for the same net. */
  lemma FormAgreesWithImport(cat: Catalog, p: Id)
    requires CsvData.ImportTaxRate(cat, p).Ok?
    requires cat.products[p].taxId != Some("")
    ensures FormTaxRate(cat, p) == CsvData.ImportTaxRate(cat, p)
  {
  }

  /** The store change of a confirmed form: the upsert of the pair with a
      flat price, or the failure. */
  function FormSaveSpec(s: Store, online: bool, cat: Catalog, host: Host, c: Id, p: Id, amount: real)
    : (r: Result<Store>)
    ensures r.Ok? <==> p in cat.products && online
  {
    match FormTaxRate(cat, p)
    case Err(e) => Err(e)
    case Ok(rate) => if !online then Err(HostFailure) else Ok(Upsert(s, c, p, FlatPrice(host, amount, rate)))
  }

  /** The form is complete: a customer, a product and a non-zero amount. */
  predicate Ready(customer: Option<Id>, product: Option<Id>, amount: Amount)
  {
    IdTruthy(customer) && IdTruthy(product) && AmountTruthy(amount)
  }

  /** The argument of `onPageChange`: an object with optional page and
      limit, `null` (whose `typeof` is also "object"), a number, or
      anything else. */
  datatype PageArg = PageObject(page: Option<int>, limit: Option<int>) | PageNull | PageNumber(n: int) | PageOther

  /** The page and limit after `onPageChange`, and whether it fetches. */
  function Paging(arg: PageArg, page: int, limit: int): (r: (int, int, bool))
    ensures arg.PageNull? || arg.PageOther? ==> r == (page, limit, false)
    ensures arg.PageNumber? ==> r == (if arg.n > 0 then (arg.n, limit, true) else (page, limit, false))
    ensures arg.PageObject? ==>
              && r.2
              && r.0 == (if arg.page.Some? && arg.page.value != 0 then arg.page.value else page)
              && r.1 == (if arg.limit.Some? && arg.limit.value != 0 then arg.limit.value else limit)
  {
    match arg
    case PageObject(pg, lm) =>
      (if pg.Some? && pg.value != 0 then pg.value else page,
       if lm.Some? && lm.value != 0 then lm.value else limit,
       true)
    case PageNumber(n) => if n > 0 then (n, limit, true) else (page, limit, false)
    case _ => (page, limit, false)
  }

  // ------------------------------------------------------------- the page

  class ListPage {
    var isLoading: bool
    var isImporting: bool
    var prices: seq<ListRow>
    var total: int
    var page: int
    var limit: int
    var showDeleteModal: bool
    var deleteRecordId: Option<RecordId>
    var showAddCustomPriceModal: bool
    var showEditCustomPriceModal: bool
    var selectedCustomer: Option<Id>
    var selectedProduct: Option<Id>
    var newCustomerAmount: Amount
    var notices: seq<Notice>
    const repo: Repository
    const catalog: Catalog
    const host: Host

    /** `data()`: the initial state, before `created()` fetches. */
    constructor (repo: Repository, catalog: Catalog, host: Host)
      ensures !isLoading && !isImporting && prices == [] && total == 0 && page == 1 && limit == 10
      ensures !showDeleteModal && deleteRecordId.None?
      ensures !showAddCustomPriceModal && !showEditCustomPriceModal
      ensures selectedCustomer.None? && selectedProduct.None? && newCustomerAmount == NoAmount
      ensures notices == []
      ensures this.repo == repo && this.catalog == catalog && this.host == host
    {
      isLoading, isImporting := false, false;
      prices, total := [], 0;
      page, limit := 1, 10;
      showDeleteModal, deleteRecordId := false, None;
      showAddCustomPriceModal, showEditCustomPriceModal := false, false;
      selectedCustomer, selectedProduct, newCustomerAmount := None, None, NoAmount;
      notices := [];
      this.repo, this.catalog, this.host := repo, catalog, host;
    }

    /** `fetchCustomPrices`: on success the rows of the current page and the
        total; on failure an error notice and the list as it was. */
    method FetchCustomPrices()
      modifies this`isLoading, this`prices, this`total, this`notices
      ensures !isLoading
      ensures var f := Fetch(catalog, host, repo.records, repo.online, page, limit);
              && (f.Ok? ==> prices == f.value.0 && total == f.value.1 && notices == old(notices))
              && (f.Err? ==> prices == old(prices) && total == old(total) && notices == old(notices) + [FetchFailed])
    {
      isLoading := true;
      var found := repo.SearchAll();
      var fetched: Result<(seq<ListRow>, nat)>;
      if found.Err? {
        fetched := Err(found.error);
      } else {
        match PageOf(Newest(found.value), page, limit) {
          case Err(e) => fetched := Err(e);
          case Ok(rs) => fetched := Ok((ListRows(catalog, host, rs), |found.value|));
        }
      }
      if fetched.Ok? {
        prices := fetched.value.0;
        total := fetched.value.1;
      } else {
        notices := notices + [FetchFailed];
      }
      isLoading := false;
    }

    /** `handleImportFinish`. */
    method HandleImportFinish()
      modifies this`isImporting, this`isLoading, this`prices, this`total, this`notices
      ensures !isImporting && !isLoading
      ensures var f := Fetch(catalog, host, repo.records, repo.online, page, limit);
              && (f.Ok? ==> prices == f.value.0 && total == f.value.1 && notices == old(notices))
              && (f.Err? ==> prices == old(prices) && total == old(total) && notices == old(notices) + [FetchFailed])
    {
      isImporting := false;
      FetchCustomPrices();
    }

    /** `onPageChange`: an object sets the truthy page and limit it carries,
        a positive number sets the page; either then fetches. `null` throws
        on reading its page. Anything else is ignored. */
    method OnPageChange(arg: PageArg) returns (r: Result<()>)
      modifies this`page, this`limit, this`isLoading, this`prices, this`total, this`notices
      ensures r.Err? <==> arg.PageNull?
      ensures var pg := Paging(arg, old(page), old(limit));
              && page == pg.0 && limit == pg.1
              && (pg.2 ==> var f := Fetch(catalog, host, repo.records, repo.online, page, limit);
                            && !isLoading
                            && (f.Ok? ==> prices == f.value.0 && total == f.value.1 && notices == old(notices))
                            && (f.Err? ==> prices == old(prices) && total == old(total)
                                           && notices == old(notices) + [FetchFailed]))
              && (!pg.2 ==> prices == old(prices) && total == old(total) && isLoading == old(isLoading)
                            && notices == old(notices))
    {
      match arg {
        case PageNull =>
          return Err(TypeError);
        case PageObject(pg, lm) =>
          if pg.Some? && pg.value != 0 {
            page := pg.value;
          }
          if lm.Some? && lm.value != 0 {
            limit := lm.value;
          }
        case PageNumber(n) =>
          if n > 0 {
            page := n;
          } else {
            return Ok(());
          }
        case PageOther =>
          return Ok(());
      }
      FetchCustomPrices();
      r := Ok(());
    }

    method OpenAddCustomPriceModal()
      modifies this`showAddCustomPriceModal
      ensures showAddCustomPriceModal
    {
      showAddCustomPriceModal := true;
    }

    method OpenDeleteModal(recordId: Option<RecordId>)
      modifies this`deleteRecordId, this`showDeleteModal
      ensures deleteRecordId == recordId && showDeleteModal
    {
      deleteRecordId := recordId;
      showDeleteModal := true;
    }

    method CloseDeleteModal()
      modifies this`deleteRecordId, this`showDeleteModal
      ensures deleteRecordId.None? && !showDeleteModal
    {
      showDeleteModal := false;
      deleteRecordId := None;
    }

    /** `confirmDelete`: delete the chosen record, report the outcome,
        refresh the list after a success, and close the dialog either way. */
    method ConfirmDelete()
      requires Valid(repo.State())
      modifies repo`records, this`deleteRecordId, this`showDeleteModal, this`isLoading, this`prices,
               this`total, this`notices
      ensures Valid(repo.State())
      ensures var deleted := old(repo.online) && old(deleteRecordId).Some?;
              && (deleted ==> repo.records == DeleteById(old(repo.records), old(deleteRecordId).value))
              && (!deleted ==> && repo.records == old(repo.records) && notices == old(notices) + [DeleteFailed]
                               && prices == old(prices) && total == old(total) && isLoading == old(isLoading))
      ensures old(repo.online) && old(deleteRecordId).Some? ==>
                var f := Fetch(catalog, host, repo.records, repo.online, page, limit);
                && !isLoading
                && (f.Ok? ==> prices == f.value.0 && total == f.value.1 && notices == old(notices) + [DeleteDone])
                && (f.Err? ==> prices == old(prices) && total == old(total)
                               && notices == old(notices) + [DeleteDone, FetchFailed])
      ensures FindId(repo.records, if old(deleteRecordId).Some? then old(deleteRecordId).value else 0).None?
              || !(old(repo.online) && old(deleteRecordId).Some?)
      ensures deleteRecordId.None? && !showDeleteModal
    {
      ghost var before := repo.State();
      var r := repo.Delete(deleteRecordId);
      if r.Ok? {
        DeleteValid(before, deleteRecordId.value);
        notices := notices + [DeleteDone];
        FetchCustomPrices();
      } else {
        notices := notices + [DeleteFailed];
      }
      CloseDeleteModal();
    }

    /** `resetForm`. */
    method ResetForm()
      modifies this`selectedCustomer, this`selectedProduct, this`newCustomerAmount, this`showAddCustomPriceModal
      ensures selectedCustomer.None? && selectedProduct.None? && newCustomerAmount == NoAmount
      ensures !showAddCustomPriceModal
    {
      selectedCustomer := None;
      selectedProduct := None;
      newCustomerAmount := NoAmount;
      showAddCustomPriceModal := false;
    }

    /** `openEditCustomPriceModal(item)`: load the row's pair and its net
        text into the form. */
    method OpenEditCustomPriceModal(item: ListRow)
      modifies this`selectedCustomer, this`selectedProduct, this`newCustomerAmount, this`showEditCustomPriceModal
      ensures selectedCustomer == item.customerId && selectedProduct == item.productId
      ensures newCustomerAmount == if item.netPrice != "" then ParseAmount(host.parseFloat(item.netPrice)) else NoAmount
      ensures showEditCustomPriceModal
    {
      selectedCustomer := item.customerId;
      selectedProduct := item.productId;
      if item.netPrice != "" {
        newCustomerAmount := ParseAmount(host.parseFloat(item.netPrice));
      } else {
        newCustomerAmount := NoAmount;
      }
      showEditCustomPriceModal := true;
    }

    /** `fetchExistingPrice`, run when the selected customer or product
        changes: the stored net of the selected pair, or nothing. */
    method FetchExistingPrice()
      modifies this`newCustomerAmount
      ensures !(IdTruthy(selectedCustomer) && IdTruthy(selectedProduct) && repo.online) ==>
                newCustomerAmount == NoAmount
      ensures IdTruthy(selectedCustomer) && IdTruthy(selectedProduct) && repo.online ==>
                var found := Lookup(repo.records, selectedCustomer.value, selectedProduct.value);
                newCustomerAmount == if found.Some? then ExistingAmount(found.value.price, host) else NoAmount
    {
      if !IdTruthy(selectedCustomer) || !IdTruthy(selectedProduct) {
        newCustomerAmount := NoAmount;
        return;
      }
      var found := repo.Search(selectedCustomer.value, selectedProduct.value);
      if found.Err? || found.value.None? {
        newCustomerAmount := NoAmount;
      } else {
        newCustomerAmount := ExistingAmount(found.value.value.price, host);
      }
    }

    /** The repository part of `addOrUpdateCustomPrice`: read the tax
        rate, reuse or create the pair's record, set its price, save it. */
    method SaveForm(c: Id, p: Id, net: real) returns (r: Result<()>)
      requires Valid(repo.State())
      modifies repo
      ensures repo.online == old(repo.online)
      ensures var spec := FormSaveSpec(old(repo.State()), old(repo.online), catalog, host, c, p, net);
              && (r.Ok? <==> spec.Ok?)
              && repo.State() == (if spec.Ok? then spec.value else old(repo.State()))
      ensures Valid(repo.State())
    {
      var rate: real;
      match FormTaxRate(catalog, p) {
        case Err(e) => return Err(e);
        case Ok(t) => rate := t;
      }
      var price := FlatPrice(host, net, rate);
      ghost var before := repo.State();
      SaveIsUpsert(before, c, p, price);
      UpsertValid(before, c, p, price);
      var found := repo.Search(c, p);
      if found.Err? {
        return Err(found.error);
      }
      var entity: CustomPrice;
      if found.value.Some? {
        entity := found.value.value;
      } else {
        entity := repo.Create();
      }
      entity := entity.(customerId := Some(c), productId := Some(p), price := price);
      r := repo.Save(entity);
    }

    /** `addOrUpdateCustomPrice`: an incomplete form is refused; otherwise
        the pair's price is saved, the list refreshed and the form reset.
        A failure leaves the store and the form as they were. */
    method AddOrUpdateCustomPrice(isUpdate: bool)
      requires Valid(repo.State())
      modifies repo, this`isLoading, this`prices, this`total, this`notices, this`selectedCustomer,
               this`selectedProduct, this`newCustomerAmount, this`showAddCustomPriceModal,
               this`showEditCustomPriceModal
      ensures repo.online == old(repo.online)
      ensures Valid(repo.State())
      ensures !Ready(old(selectedCustomer), old(selectedProduct), old(newCustomerAmount)) ==>
                && repo.State() == old(repo.State())
                && notices == old(notices) + [FieldsMissing]
                && selectedCustomer == old(selectedCustomer) && selectedProduct == old(selectedProduct)
                && newCustomerAmount == old(newCustomerAmount) && isLoading == old(isLoading)
                && prices == old(prices) && total == old(total)
                && showAddCustomPriceModal == old(showAddCustomPriceModal)
                && showEditCustomPriceModal == old(showEditCustomPriceModal)
      ensures Ready(old(selectedCustomer), old(selectedProduct), old(newCustomerAmount)) ==>
                var spec := FormSaveSpec(old(repo.State()), old(repo.online), catalog, host,
                                         old(selectedCustomer).value, old(selectedProduct).value,
                                         old(newCustomerAmount).x);
                && !isLoading
                && (spec.Ok? ==>
                      && repo.State() == spec.value
                      && selectedCustomer.None? && selectedProduct.None? && newCustomerAmount == NoAmount
                      && !showAddCustomPriceModal && !showEditCustomPriceModal)
                && (spec.Err? ==>
                      && repo.State() == old(repo.State())
                      && notices == old(notices) + [SaveFailed]
                      && selectedCustomer == old(selectedCustomer) && selectedProduct == old(selectedProduct)
                      && newCustomerAmount == old(newCustomerAmount)
                      && prices == old(prices) && total == old(total)
                      && showAddCustomPriceModal == old(showAddCustomPriceModal)
                      && showEditCustomPriceModal == old(showEditCustomPriceModal))
      ensures Ready(old(selectedCustomer), old(selectedProduct), old(newCustomerAmount))
              && FormSaveSpec(old(repo.State()), old(repo.online), catalog, host, old(selectedCustomer).value,
                              old(selectedProduct).value, old(newCustomerAmount).x).Ok? ==>
                var f := Fetch(catalog, host, repo.records, repo.online, page, limit);
                && (f.Ok? ==> prices == f.value.0 && total == f.value.1 && notices == old(notices) + [SaveDone(isUpdate)])
                && (f.Err? ==> prices == old(prices) && total == old(total)
                               && notices == old(notices) + [SaveDone(isUpdate)] + [FetchFailed])
    {
      if !Ready(selectedCustomer, selectedProduct, newCustomerAmount) {
        notices := notices + [FieldsMissing];
        return;
      }
      isLoading := true;
      var saved := SaveForm(selectedCustomer.value, selectedProduct.value, newCustomerAmount.x);
      if saved.Err? {
        notices := notices + [SaveFailed];
        isLoading := false;
        return;
      }
      SaveSucceeded(isUpdate);
    }

    /** What `addOrUpdateCustomPrice` does once the save has gone through:
        report it, close both dialogs, reset the form and refresh the list.
        The refresh is started without `await`, so its results land after
        the rest of these steps; it is made the last step here. */
    method SaveSucceeded(isUpdate: bool)
      modifies this`isLoading, this`prices, this`total, this`notices, this`selectedCustomer,
               this`selectedProduct, this`newCustomerAmount, this`showAddCustomPriceModal,
               this`showEditCustomPriceModal
      ensures !isLoading
      ensures selectedCustomer.None? && selectedProduct.None? && newCustomerAmount == NoAmount
      ensures !showAddCustomPriceModal && !showEditCustomPriceModal
      ensures var f := Fetch(catalog, host, repo.records, repo.online, page, limit);
              && (f.Ok? ==> prices == f.value.0 && total == f.value.1 && notices == old(notices) + [SaveDone(isUpdate)])
              && (f.Err? ==> prices == old(prices) && total == old(total)
                             && notices == old(notices) + [SaveDone(isUpdate)] + [FetchFailed])
    {
      notices := notices + [SaveDone(isUpdate)];
      showAddCustomPriceModal := false;
      showEditCustomPriceModal := false;
      ResetForm();
      isLoading := false;
      FetchCustomPrices();
    }
  }
}
