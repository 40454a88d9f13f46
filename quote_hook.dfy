/** `QuoteCustomerResponseSubscriber`: when a quote enters the "accepted"
    state, every line item flagged `persistPrice` whose total differs from
    the catalog gross becomes a customer-specific price, one `sync` call of
    one upsert per such item. */
module QuoteHook {
  import opened Common
  import PriceStore
  import ProductPage

  /** The state-machine event the subscriber is bound to. */
  const AcceptedEvent: string := "state_enter.quote.state.accepted"

  /** `getSubscribedEvents`: event name -> handler. */
  const SubscribedEvents: map<string, string> := map[AcceptedEvent := "quoteAccepted"]

  /** The events the subscriber reacts to: only entering "accepted". */
  predicate Handles(eventName: string)
    ensures Handles(eventName) <==> eventName == AcceptedEvent
  {
    eventName in SubscribedEvents
  }

  const PersistPriceKey: string := "persistPrice"

  /** The platform's default currency (`Defaults::CURRENCY`), the fallback of
      a price collection's currency lookup. */
  const DefaultCurrency: Id := "b7d2554b0ce847cd82f3ac9bd1c0dfca"

  /** A line item's calculated price: its total and the rates of its tax
      rules, in order. */
  datatype CalculatedPrice = CalculatedPrice(totalPrice: real, taxRates: seq<real>)

  /** The parts of a quote line item the handler reads; None is null. */
  datatype QuoteLineItem = QuoteLineItem(
    customFields: Option<map<string, Json>>,
    productId: Option<Id>,
    price: Option<CalculatedPrice>)

  /** The state-change event: the quote's line items, its customer and the
      currency of the event's context. */
  datatype QuoteEvent = QuoteEvent(lineItems: seq<QuoteLineItem>, customerId: Id, currencyId: Id)

  /** The product repository: product id -> its `price` field. */
  type Products = map<Id, ProductPage.PriceField>

  /** One entry of an upsert's payload. */
  datatype Payload = Payload(productId: Id, customerId: Id, price: Json)

  /** One operation handed to the custom price updater. */
  datatype Operation = Operation(action: string, payload: seq<Payload>)

  /** `$customFields && isset($customFields['persistPrice'])`: a non-empty
      array whose `persistPrice` key exists and is not null. A key holding
      false still qualifies. */
  predicate Qualifies(item: QuoteLineItem)
  {
    && item.customFields.Some?
    && item.customFields.value != map[]
    && PersistPriceKey in item.customFields.value
    && item.customFields.value[PersistPriceKey] != JNull
  }

  /** `isset` is not truthiness: false qualifies, null and absence do not. */
  lemma QualifiesIsIsset(fields: map<string, Json>, v: Json, id: Option<Id>, price: Option<CalculatedPrice>)
    ensures Qualifies(QuoteLineItem(Some(fields[PersistPriceKey := v]), id, price)) <==> v != JNull
    ensures PersistPriceKey !in fields ==> !Qualifies(QuoteLineItem(Some(fields), id, price))
    ensures !Qualifies(QuoteLineItem(None, id, price))
  {
    assert PersistPriceKey in fields[PersistPriceKey := v];
  }

  /** The entry of the collection with the given currency id. */
  function FindCurrency(prices: seq<ProductPage.BasePrice>, currencyId: Id): (r: Option<ProductPage.BasePrice>)
    ensures r.Some? ==> r.value in prices && r.value.currencyId == currencyId
    ensures r.None? ==> forall p :: p in prices ==> p.currencyId != currencyId
  {
    if prices == [] then None
    else if prices[0].currencyId == currencyId then Some(prices[0])
    else FindCurrency(prices[1..], currencyId)
  }

  /** `getCurrencyPrice($currencyId)`: the entry for the currency, else the
      entry for the default currency, else null. */
  function CurrencyPrice(prices: seq<ProductPage.BasePrice>, currencyId: Id): (r: Option<ProductPage.BasePrice>)
    ensures r.Some? ==> r.value in prices
    ensures r.Some? ==> r.value.currencyId == currencyId
                        || (r.value.currencyId == DefaultCurrency
                            && forall p :: p in prices ==> p.currencyId != currencyId)
    ensures r.None? <==> forall p :: p in prices ==> p.currencyId != currencyId && p.currencyId != DefaultCurrency
  {
    var own := FindCurrency(prices, currencyId);
    if own.Some? then own
    else if currencyId == DefaultCurrency then None
    else FindCurrency(prices, DefaultCurrency)
  }

  /** `$totalPrice / (1 + ($taxRate / 100))`; a rate of -100 divides by zero. */
  function NetPrice(total: real, taxRate: real): (r: Result<real>)
    ensures r.Ok? <==> taxRate != -100.0
    ensures r.Ok? ==> r.value * (1.0 + taxRate / 100.0) == total
  {
    if 1.0 + taxRate / 100.0 == 0.0 then Err(RuntimeError("Division by zero"))
    else Ok(total / (1.0 + taxRate / 100.0))
  }

  /** The single upsert of one item: its product, the event's customer, and
      one tier from quantity 1 with no upper bound in the context currency,
      gross the item total, net its formatted text, linked. */
  function UpsertOperation(productId: Id, customerId: Id, currencyId: Id, total: real, net: string): Operation
  {
    Operation("upsert", [Payload(productId, customerId,
      PriceStore.TiersJson(PriceStore.FlatTier(currencyId, JStr(net), JNum(total))))])
  }

  /** What one pass of the loop body does with one line item: Ok(None)
      when it is skipped or its total equals the catalog gross, Ok(Some(ops))
      for the operations it syncs, Err when a step hits null or divides by
      zero. The steps fail in the order the handler takes them. */
  function ItemSync(products: Products, host: Host, event: QuoteEvent, item: QuoteLineItem): Result<Option<seq<Operation>>>
  {
    if !Qualifies(item) then Ok(None)
    // `getProductById(null)`: the id parameter does not accept null.
    else if item.productId.None? then Err(TypeError)
    // `first()` of an empty search result is null.
    else if item.productId.value !in products then Err(TypeError)
    // `get('price')` is null.
    else if products[item.productId.value].None? then Err(TypeError)
    else
      var original := CurrencyPrice(products[item.productId.value].value, event.currencyId);
      if item.price.None? then Err(TypeError)
      // `getTaxRules()->first()` is null.
      else if item.price.value.taxRates == [] then Err(TypeError)
      else
        var total := item.price.value.totalPrice;
        match NetPrice(total, item.price.value.taxRates[0])
        case Err(e) => Err(e)
        case Ok(net) =>
          // `$originalPrice->getGross()` on null.
          if original.None? then Err(TypeError)
          else if total != original.value.gross then
            Ok(Some([UpsertOperation(item.productId.value, event.customerId, event.currencyId,
                                     total, host.numberFormat2(net))]))
          else Ok(None)
  }

  /** An item passes the loop without error and syncs exactly when it
      qualifies and its total differs from the catalog gross in the
      context currency; what it syncs is one upsert of the fixed shape,
      whose net is derived from the first tax rule's rate. */
  lemma ItemSyncSelects(products: Products, host: Host, event: QuoteEvent, item: QuoteLineItem)
    requires ItemSync(products, host, event, item).Ok?
    ensures ItemSync(products, host, event, item).value.Some? <==>
              && Qualifies(item)
              && item.price.value.totalPrice
                 != CurrencyPrice(products[item.productId.value].value, event.currencyId).value.gross
    ensures ItemSync(products, host, event, item).value.Some? ==>
              var ops := ItemSync(products, host, event, item).value.value;
              var total := item.price.value.totalPrice;
              var rate := item.price.value.taxRates[0];
              && |ops| == 1
              && ops[0].action == "upsert"
              && |ops[0].payload| == 1
              && ops[0].payload[0].productId == item.productId.value
              && ops[0].payload[0].customerId == event.customerId
              && PriceStore.DecodeTiers(ops[0].payload[0].price)
                 == Some([PriceStore.Tier(1, None, [PriceStore.PriceEntry(event.currencyId,
                      JStr(host.numberFormat2(NetPrice(total, rate).value)), JNum(total), true)])])
  {
    if ItemSync(products, host, event, item).value.Some? {
      var total := item.price.value.totalPrice;
      var rate := item.price.value.taxRates[0];
      PriceStore.DecodeEncodeTiers(PriceStore.FlatTier(event.currencyId,
        JStr(host.numberFormat2(NetPrice(total, rate).value)), JNum(total)));
    }
  }

  /** The handler's outcome over a list of items: the sync calls made, in
      order, and the failure that stopped it, if any. */
  datatype Outcome = Outcome(calls: seq<seq<Operation>>, failure: Option<Failure>)

  /** The loop run over `items`, one item after the other; a failure ends
      the run, and the calls already made stay made. */
  function Run(products: Products, host: Host, event: QuoteEvent, items: seq<QuoteLineItem>): Outcome
  {
    if items == [] then Outcome([], None)
    else
      var before := Run(products, host, event, items[..|items| - 1]);
      if before.failure.Some? then before
      else match ItemSync(products, host, event, items[|items| - 1])
        case Err(e) => Outcome(before.calls, Some(e))
        case Ok(None) => before
        case Ok(Some(ops)) => Outcome(before.calls + [ops], None)
  }

  /** The reference selection: the operations of each item that syncs, in
      item order, ignoring failures. */
  function Selected(products: Products, host: Host, event: QuoteEvent, items: seq<QuoteLineItem>): (r: seq<seq<Operation>>)
    ensures |r| <= |items|
  {
    if items == [] then []
    else match ItemSync(products, host, event, items[0])
      case Ok(Some(ops)) => [ops] + Selected(products, host, event, items[1..])
      case _ => Selected(products, host, event, items[1..])
  }

  lemma {:induction false} SelectedAppend(products: Products, host: Host, event: QuoteEvent,
                                          items: seq<QuoteLineItem>, item: QuoteLineItem)
    ensures Selected(products, host, event, items + [item])
            == Selected(products, host, event, items) + Selected(products, host, event, [item])
  {
    if items == [] {
      assert [] + [item] == [item];
    } else {
      assert (items + [item])[1..] == items[1..] + [item];
      SelectedAppend(products, host, event, items[1..], item);
    }
  }

  /** A run that does not fail passes every item without error and makes
      exactly the selected sync calls. */
  lemma {:induction false} RunCompletes(products: Products, host: Host, event: QuoteEvent, items: seq<QuoteLineItem>)
    requires Run(products, host, event, items).failure.None?
    ensures Run(products, host, event, items).calls == Selected(products, host, event, items)
    ensures forall k :: 0 <= k < |items| ==> ItemSync(products, host, event, items[k]).Ok?
  {
    if items != [] {
      var n := |items| - 1;
      var init := items[..n];
      RunCompletes(products, host, event, init);
      assert items == init + [items[n]];
      SelectedAppend(products, host, event, init, items[n]);
      assert [items[n]][1..] == [];
      forall k | 0 <= k < |items|
        ensures ItemSync(products, host, event, items[k]).Ok?
      {
        if k < n { assert items[k] == init[k]; }
      }
    }
  }

  /** A run that fails stops at the first failing item, having made exactly
      the calls selected among the items before it. */
  lemma {:induction false} RunFails(products: Products, host: Host, event: QuoteEvent, items: seq<QuoteLineItem>)
    requires Run(products, host, event, items).failure.Some?
    ensures exists k :: 0 <= k < |items|
              && ItemSync(products, host, event, items[k]) == Err(Run(products, host, event, items).failure.value)
              && (forall j :: 0 <= j < k ==> ItemSync(products, host, event, items[j]).Ok?)
              && Run(products, host, event, items).calls == Selected(products, host, event, items[..k])
  {
    var n := |items| - 1;
    var init := items[..n];
    var before := Run(products, host, event, init);
    if before.failure.Some? {
      RunFails(products, host, event, init);
      var k :| 0 <= k < |init|
        && ItemSync(products, host, event, init[k]) == Err(before.failure.value)
        && (forall j :: 0 <= j < k ==> ItemSync(products, host, event, init[j]).Ok?)
        && before.calls == Selected(products, host, event, init[..k]);
      assert items[..k] == init[..k];
      assert forall j :: 0 <= j <= k ==> items[j] == init[j];
    } else {
      RunCompletes(products, host, event, init);
      assert forall j :: 0 <= j < n ==> items[j] == init[j];
    }
  }

  /** `CustomPriceUpdater`: the host service the operations go to, seen as
      the log of its `sync` calls. */
  class CustomPriceUpdater {
    var synced: seq<seq<Operation>>

    constructor ()
      ensures synced == []
    {
      synced := [];
    }

    method Sync(operations: seq<Operation>)
      modifies this
      ensures synced == old(synced) + [operations]
    {
      synced := synced + [operations];
    }
  }

  class QuoteCustomerResponseSubscriber {
    const customPriceUpdater: CustomPriceUpdater
    const productRepository: Products

    constructor (customPriceUpdater: CustomPriceUpdater, productRepository: Products)
      ensures this.customPriceUpdater == customPriceUpdater
      ensures this.productRepository == productRepository
    {
      this.customPriceUpdater := customPriceUpdater;
      this.productRepository := productRepository;
    }

    /** `quoteAccepted`: the loop over the quote's line items. The updater
        receives exactly the calls of the run; the handler fails exactly
        when the run does. */
    method QuoteAccepted(host: Host, event: QuoteEvent) returns (r: Result<()>)
      modifies customPriceUpdater
      ensures customPriceUpdater.synced
              == old(customPriceUpdater.synced) + Run(productRepository, host, event, event.lineItems).calls
      ensures r.Err? <==> Run(productRepository, host, event, event.lineItems).failure.Some?
    {
      var items := event.lineItems;
      var i := 0;
      while i < |items|
        invariant 0 <= i <= |items|
        invariant Run(productRepository, host, event, items[..i]).failure.None?
        invariant customPriceUpdater.synced
                  == old(customPriceUpdater.synced) + Run(productRepository, host, event, items[..i]).calls
      {
        assert items[..i + 1][..i] == items[..i];
        assert items[..i + 1][i] == items[i];
        match ItemSync(productRepository, host, event, items[i]) {
          case Err(e) =>
            RunStopsAtFailure(productRepository, host, event, items, i + 1);
            return Err(e);
          case Ok(None) =>
          case Ok(Some(ops)) =>
            customPriceUpdater.Sync(ops);
        }
        i := i + 1;
      }
      assert items[..i] == items;
      return Ok(());
    }
  }

  /** Once a run has failed, the items after the failure change nothing. */
  lemma {:induction false} RunStopsAtFailure(products: Products, host: Host, event: QuoteEvent,
                                             items: seq<QuoteLineItem>, n: nat)
    requires n <= |items|
    requires Run(products, host, event, items[..n]).failure.Some?
    ensures Run(products, host, event, items) == Run(products, host, event, items[..n])
    decreases |items| - n
  {
    if n < |items| {
      var m := |items| - 1;
      assert items[..m][..n] == items[..n];
      RunStopsAtFailure(products, host, event, items[..m], n);
      assert items[..|items|] == items;
    } else {
      assert items[..n] == items;
    }
  }
}
