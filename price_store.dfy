/** The customer-specific price records, the host repository that keeps
    them, and the upsert keyed by (customer, product) that the CSV import,
    the manual add/edit form and the quote hook all perform. */
module PriceStore {
  import opened Common

  /** Record ids are drawn from a counter, standing for the UUIDs that
      `repository.create()` generates. */
  type RecordId = nat

  /** A `custom_price` record. The customer or the product may be unset (a
      freshly created entity, or a record the host keeps for a customer
      group); `price` is the JSON value of the record's price field. */
  datatype CustomPrice = CustomPrice(
    id: RecordId,
    customerId: Option<Id>,
    productId: Option<Id>,
    price: Json)

  /** One currency's amounts inside a quantity tier. */
  datatype PriceEntry = PriceEntry(currencyId: Id, net: Json, gross: Json, linked: bool)

  /** A quantity tier: from `quantityStart` up to `quantityEnd` (None: unbounded). */
  datatype Tier = Tier(quantityStart: int, quantityEnd: Option<int>, prices: seq<PriceEntry>)

  function EntryJson(e: PriceEntry): Json
  {
    JObj(map["currencyId" := JStr(e.currencyId), "net" := e.net,
             "gross" := e.gross, "linked" := JBool(e.linked)])
  }

  function EntriesJson(es: seq<PriceEntry>): seq<Json>
  {
    if es == [] then [] else [EntryJson(es[0])] + EntriesJson(es[1..])
  }

  function TierJson(t: Tier): Json
  {
    JObj(map["quantityStart" := JNum(t.quantityStart as real),
             "quantityEnd" := (match t.quantityEnd case None => JNull case Some(n) => JNum(n as real)),
             "price" := JArr(EntriesJson(t.prices))])
  }

  function TierListJson(ts: seq<Tier>): seq<Json>
  {
    if ts == [] then [] else [TierJson(ts[0])] + TierListJson(ts[1..])
  }

  /** The JSON the writers store in a record's `price` field. */
  function TiersJson(ts: seq<Tier>): Json
  {
    JArr(TierListJson(ts))
  }

  function DecodeInt(j: Json): Option<int>
  {
    if j.JNum? && j.n == j.n.Floor as real then Some(j.n.Floor) else None
  }

  function DecodeEntry(j: Json): Option<PriceEntry>
  {
    match j
    case JObj(f) =>
      if && "currencyId" in f && f["currencyId"].JStr?
         && "net" in f && "gross" in f
         && "linked" in f && f["linked"].JBool?
      then Some(PriceEntry(f["currencyId"].s, f["net"], f["gross"], f["linked"].b))
      else None
    case _ => None
  }

  function DecodeEntries(js: seq<Json>): Option<seq<PriceEntry>>
  {
    if js == [] then Some([])
    else match (DecodeEntry(js[0]), DecodeEntries(js[1..]))
      case (Some(e), Some(es)) => Some([e] + es)
      case _ => None
  }

  function DecodeTier(j: Json): Option<Tier>
  {
    match j
    case JObj(f) =>
      if "quantityStart" in f && "quantityEnd" in f && "price" in f && f["price"].JArr? then
        match (DecodeInt(f["quantityStart"]), f["quantityEnd"], DecodeEntries(f["price"].items))
        case (Some(start), JNull, Some(es)) => Some(Tier(start, None, es))
        case (Some(start), end, Some(es)) =>
          if DecodeInt(end).Some? then Some(Tier(start, DecodeInt(end), es)) else None
        case _ => None
      else None
    case _ => None
  }

  function DecodeTierList(js: seq<Json>): Option<seq<Tier>>
  {
    if js == [] then Some([])
    else match (DecodeTier(js[0]), DecodeTierList(js[1..]))
      case (Some(t), Some(ts)) => Some([t] + ts)
      case _ => None
  }

  /** The typed reading of a `price` field; None when it is not a tier list. */
  function DecodeTiers(j: Json): Option<seq<Tier>>
  {
    if j.JArr? then DecodeTierList(j.items) else None
  }

  lemma {:induction false} DecodeEncodeEntries(es: seq<PriceEntry>)
    ensures DecodeEntries(EntriesJson(es)) == Some(es)
  {
    if es != [] {
      DecodeEncodeEntries(es[1..]);
      assert EntriesJson(es)[1..] == EntriesJson(es[1..]);
      assert [es[0]] + es[1..] == es;
    }
  }

  lemma DecodeEncodeTier(t: Tier)
    ensures DecodeTier(TierJson(t)) == Some(t)
  {
    DecodeEncodeEntries(t.prices);
    assert (t.quantityStart as real).Floor == t.quantityStart;
    match t.quantityEnd {
      case None =>
      case Some(n) => assert (n as real).Floor == n;
    }
  }

  /** The stored JSON of any tier list reads back as that tier list. */
  lemma {:induction false} DecodeEncodeTiers(ts: seq<Tier>)
    ensures DecodeTiers(TiersJson(ts)) == Some(ts)
  {
    if ts != [] {
      DecodeEncodeTier(ts[0]);
      DecodeEncodeTiers(ts[1..]);
      assert TierListJson(ts)[1..] == TierListJson(ts[1..]);
      assert [ts[0]] + ts[1..] == ts;
    }
  }

  /** The price every writer stores: one tier from quantity 1 with no upper
      bound, holding one linked entry for the given currency. */
  function FlatTier(currencyId: Id, net: Json, gross: Json): seq<Tier>
  {
    [Tier(1, None, [PriceEntry(currencyId, net, gross, true)])]
  }

  /** Gross from net at a tax rate in percent (`net * (1 + taxRate / 100)`),
      on exact numbers: the float rounding of the source is not modelled. */
  function GrossFromNet(net: real, taxRate: real): real
  {
    net * (1.0 + taxRate / 100.0)
  }

  /** The price the CSV import and the add/edit form store for a net amount
      at a tax rate: one tier in the system currency, both amounts as text
      with two decimals. */
  function FlatPrice(host: Host, net: real, rate: real): Json
  {
    TiersJson(FlatTier(host.systemCurrencyId, JStr(host.toFixed2(net)),
                       JStr(host.toFixed2(GrossFromNet(net, rate)))))
  }

  /** Such a price is one tier from quantity 1 with no upper bound, holding
      one linked system-currency entry with the formatted net and gross. */
  lemma FlatPriceDecodes(host: Host, net: real, rate: real)
    ensures DecodeTiers(FlatPrice(host, net, rate))
            == Some([Tier(1, None, [PriceEntry(host.systemCurrencyId, JStr(host.toFixed2(net)),
                                               JStr(host.toFixed2(GrossFromNet(net, rate))), true)])])
  {
    DecodeEncodeTiers(FlatTier(host.systemCurrencyId, JStr(host.toFixed2(net)),
                               JStr(host.toFixed2(GrossFromNet(net, rate)))));
  }

  /** `price[0].price[0][key]`: an amount of the first entry of the first
      tier, which is where every writer puts the net and the gross. */
  function TierAmount(price: Json, key: string): Option<Json>
  {
    Member(At0(Member(At0(Some(price)), "price")), key)
  }

  /** Read from a stored tier list, the amounts are those of the first
      tier's first entry. */
  lemma TierAmountReadsFirstEntry(ts: seq<Tier>)
    requires ts != [] && ts[0].prices != []
    ensures TierAmount(TiersJson(ts), "net") == Some(ts[0].prices[0].net)
    ensures TierAmount(TiersJson(ts), "gross") == Some(ts[0].prices[0].gross)
  {
    assert TierListJson(ts)[0] == TierJson(ts[0]);
    assert EntriesJson(ts[0].prices)[0] == EntryJson(ts[0].prices[0]);
  }

  /** The records together with the counter that supplies fresh ids. */
  datatype Store = Store(records: seq<CustomPrice>, nextId: nat)

  /** The record belongs to the (customer, product) pair. */
  predicate IsFor(r: CustomPrice, c: Id, p: Id)
  {
    r.customerId == Some(c) && r.productId == Some(p)
  }

  /** Two records that name the same customer and the same product. */
  predicate SamePair(a: CustomPrice, b: CustomPrice)
  {
    a.customerId.Some? && a.productId.Some?
    && a.customerId == b.customerId && a.productId == b.productId
  }

  /** The store's invariant: ids are unique and below the counter, and no
      (customer, product) pair has two records. */
  ghost predicate Valid(s: Store)
  {
    && (forall i :: 0 <= i < |s.records| ==> s.records[i].id < s.nextId)
    && (forall i, j :: 0 <= i < j < |s.records| ==> s.records[i].id != s.records[j].id)
    && (forall i, j :: 0 <= i < j < |s.records| ==> !SamePair(s.records[i], s.records[j]))
  }

  /** The first record for the pair, as a search with both ids as filters
      and `first()` finds it. */
  function FindPair(records: seq<CustomPrice>, c: Id, p: Id): (r: Option<nat>)
    ensures r.Some? ==> r.value < |records| && IsFor(records[r.value], c, p)
    ensures r.Some? ==> forall j :: 0 <= j < r.value ==> !IsFor(records[j], c, p)
    ensures r.None? ==> forall j :: 0 <= j < |records| ==> !IsFor(records[j], c, p)
  {
    if records == [] then None
    else if IsFor(records[0], c, p) then Some(0)
    else match FindPair(records[1..], c, p)
      case None => None
      case Some(k) => Some(k + 1)
  }

  /** The record with the given id. */
  function FindId(records: seq<CustomPrice>, id: RecordId): (r: Option<nat>)
    ensures r.Some? ==> r.value < |records| && records[r.value].id == id
    ensures r.Some? ==> forall j :: 0 <= j < r.value ==> records[j].id != id
    ensures r.None? ==> forall j :: 0 <= j < |records| ==> records[j].id != id
  {
    if records == [] then None
    else if records[0].id == id then Some(0)
    else match FindId(records[1..], id)
      case None => None
      case Some(k) => Some(k + 1)
  }

  function Lookup(records: seq<CustomPrice>, c: Id, p: Id): Option<CustomPrice>
  {
    match FindPair(records, c, p)
    case None => None
    case Some(i) => Some(records[i])
  }

  /** Reuse the pair's record or create one with both ids, then set its price. */
  function Upsert(s: Store, c: Id, p: Id, price: Json): Store
  {
    match FindPair(s.records, c, p)
    case Some(i) => Store(s.records[i := s.records[i].(price := price)], s.nextId)
    case None => Store(s.records + [CustomPrice(s.nextId, Some(c), Some(p), price)], s.nextId + 1)
  }

  /** The upsert keeps the invariant: in particular it never adds a second
      record for a pair. */
  lemma UpsertValid(s: Store, c: Id, p: Id, price: Json)
    requires Valid(s)
    ensures Valid(Upsert(s, c, p, price))
  {
    var t := Upsert(s, c, p, price);
    match FindPair(s.records, c, p)
    case Some(i) =>
      forall a, b | 0 <= a < b < |t.records|
        ensures !SamePair(t.records[a], t.records[b])
      {
        assert !SamePair(s.records[a], s.records[b]);
      }
    case None =>
      var n := |s.records|;
      forall a, b | 0 <= a < b < |t.records|
        ensures !SamePair(t.records[a], t.records[b]) && t.records[a].id != t.records[b].id
      {
        if b == n {
          assert !IsFor(s.records[a], c, p);
          assert s.records[a].id < s.nextId;
        }
      }
  }

  /** After the upsert the pair's record holds the new price; it is the old
      record (same id) when there was one, and a record with a fresh id
      otherwise. */
  lemma UpsertFinds(s: Store, c: Id, p: Id, price: Json)
    requires Valid(s)
    ensures var t := Upsert(s, c, p, price);
            && Lookup(t.records, c, p).Some?
            && Lookup(t.records, c, p).value.price == price
            && Lookup(t.records, c, p).value.id
               == (if Lookup(s.records, c, p).Some? then Lookup(s.records, c, p).value.id else s.nextId)
  {
    var t := Upsert(s, c, p, price);
    match FindPair(s.records, c, p)
    case Some(i) =>
      assert IsFor(t.records[i], c, p);
      assert forall j :: 0 <= j < i ==> t.records[j] == s.records[j];
      assert FindPair(t.records, c, p) == Some(i);
    case None =>
      var n := |s.records|;
      assert IsFor(t.records[n], c, p);
      assert forall j :: 0 <= j < n ==> t.records[j] == s.records[j];
      assert FindPair(t.records, c, p) == Some(n);
  }

  /** The upsert leaves every record of another pair, and every record with
      an unset id, exactly as it was and where it was. */
  lemma UpsertKeepsOthers(s: Store, c: Id, p: Id, price: Json, k: nat)
    requires k < |s.records| && !IsFor(s.records[k], c, p)
    ensures k < |Upsert(s, c, p, price).records|
    ensures Upsert(s, c, p, price).records[k] == s.records[k]
  {
  }

  /** Lookups of any other pair see the same record after the upsert. */
  lemma UpsertOtherPair(s: Store, c: Id, p: Id, price: Json, c': Id, p': Id)
    requires (c', p') != (c, p)
    ensures Lookup(Upsert(s, c, p, price).records, c', p') == Lookup(s.records, c', p')
  {
    var t := Upsert(s, c, p, price);
    var n := |s.records|;
    assert forall j :: 0 <= j < n ==> (IsFor(t.records[j], c', p') <==> IsFor(s.records[j], c', p'));
    assert forall j :: 0 <= j < n && IsFor(s.records[j], c', p') ==> t.records[j] == s.records[j];
    match FindPair(s.records, c', p')
    case Some(i) =>
      assert FindPair(t.records, c', p') == Some(i);
    case None =>
      assert |t.records| > n ==> !IsFor(t.records[n], c', p');
      assert FindPair(t.records, c', p').None?;
  }

  /** The store grows by one record exactly when the pair had none. */
  lemma UpsertSize(s: Store, c: Id, p: Id, price: Json)
    ensures |Upsert(s, c, p, price).records|
            == |s.records| + (if Lookup(s.records, c, p).None? then 1 else 0)
  {
  }

  /** A second upsert of the same pair overwrites the first: the last price
      wins, and repeating an upsert changes nothing. */
  lemma UpsertLastWins(s: Store, c: Id, p: Id, x: Json, y: Json)
    ensures Upsert(Upsert(s, c, p, x), c, p, y) == Upsert(s, c, p, y)
  {
    var t := Upsert(s, c, p, x);
    match FindPair(s.records, c, p)
    case Some(i) =>
      assert forall j :: 0 <= j < i ==> t.records[j] == s.records[j];
      assert IsFor(t.records[i], c, p);
      assert FindPair(t.records, c, p) == Some(i);
    case None =>
      var n := |s.records|;
      assert forall j :: 0 <= j < n ==> t.records[j] == s.records[j];
      assert IsFor(t.records[n], c, p);
      assert FindPair(t.records, c, p) == Some(n);
  }

  /** Save by id: replace the record with that id, or append a new one. */
  function SaveById(records: seq<CustomPrice>, e: CustomPrice): seq<CustomPrice>
  {
    match FindId(records, e.id)
    case Some(i) => records[i := e]
    case None => records + [e]
  }

  /** Delete by id: the record with that id is gone, the others keep their order. */
  function DeleteById(records: seq<CustomPrice>, id: RecordId): seq<CustomPrice>
  {
    match FindId(records, id)
    case Some(i) => records[..i] + records[i + 1..]
    case None => records
  }

  /** Deleting keeps the invariant and removes the record with that id. */
  lemma DeleteValid(s: Store, id: RecordId)
    requires Valid(s)
    ensures Valid(Store(DeleteById(s.records, id), s.nextId))
    ensures FindId(DeleteById(s.records, id), id).None?
    ensures |DeleteById(s.records, id)| == |s.records| - (if FindId(s.records, id).Some? then 1 else 0)
  {
    match FindId(s.records, id)
    case None =>
    case Some(i) =>
      var t := s.records[..i] + s.records[i + 1..];
      assert forall j :: 0 <= j < |t| ==> t[j] == s.records[if j < i then j else j + 1];
      forall a, b | 0 <= a < b < |t|
        ensures t[a].id != t[b].id && !SamePair(t[a], t[b])
      {
        var a', b' := if a < i then a else a + 1, if b < i then b else b + 1;
        assert a' < b';
      }
      forall j | 0 <= j < |t| ensures t[j].id != id {
        var j' := if j < i then j else j + 1;
        assert j' != i;
      }
  }

  /** The customers, products and taxes the components read from the host. */
  datatype Customer = Customer(firstName: string, lastName: string)
  datatype Product = Product(
    productNumber: Option<string>,
    name: Option<string>,
    translatedName: Option<string>,
    taxId: Option<Id>)
  datatype Catalog = Catalog(
    customers: map<Id, Customer>,
    products: map<Id, Product>,
    taxRates: map<Id, real>,          // tax id -> tax rate in percent
    productBySku: map<string, Id>)    // product number -> product id

  /** The host repository of `custom_price` records. `online` false stands
      for a host that rejects every call. */
  class Repository {
    var records: seq<CustomPrice>
    var nextId: nat
    var online: bool

    function State(): Store
      reads this
    {
      Store(records, nextId)
    }

    constructor (initial: Store, online: bool)
      ensures State() == initial && this.online == online
    {
      records := initial.records;
      nextId := initial.nextId;
      this.online := online;
    }

    /** A search with customerId and productId filters, limited to one result. */
    method Search(c: Id, p: Id) returns (r: Result<Option<CustomPrice>>)
      ensures online ==> r == Ok(Lookup(records, c, p))
      ensures !online ==> r == Err(HostFailure)
    {
      if !online {
        return Err(HostFailure);
      }
      r := Ok(Lookup(records, c, p));
    }

    /** A search with no filter: every record, in store order. */
    method SearchAll() returns (r: Result<seq<CustomPrice>>)
      ensures online ==> r == Ok(records)
      ensures !online ==> r == Err(HostFailure)
    {
      if !online {
        return Err(HostFailure);
      }
      r := Ok(records);
    }

    /** `repository.create()`: a new, unsaved entity with a fresh id. */
    method Create() returns (e: CustomPrice)
      modifies this`nextId
      ensures e == CustomPrice(old(nextId), None, None, JNull)
      ensures nextId == old(nextId) + 1
    {
      e := CustomPrice(nextId, None, None, JNull);
      nextId := nextId + 1;
    }

    /** `repository.save(entity)`: insert or update by id. */
    method Save(e: CustomPrice) returns (r: Result<()>)
      modifies this`records
      ensures online ==> r == Ok(()) && records == SaveById(old(records), e)
      ensures !online ==> r == Err(HostFailure) && records == old(records)
    {
      if !online {
        return Err(HostFailure);
      }
      records := SaveById(records, e);
      r := Ok(());
    }

    /** `repository.delete(id)`: an unset id is rejected by the host. */
    method Delete(id: Option<RecordId>) returns (r: Result<()>)
      modifies this`records
      ensures online && id.Some? ==> r == Ok(()) && records == DeleteById(old(records), id.value)
      ensures !(online && id.Some?) ==> r == Err(HostFailure) && records == old(records)
    {
      if !online || id.None? {
        return Err(HostFailure);
      }
      records := DeleteById(records, id.value);
      r := Ok(());
    }
  }

  /** Saving the record a search found for the pair, with a new price, is
      the upsert; so is saving a freshly created entity when the search
      found none. */
  lemma SaveIsUpsert(s: Store, c: Id, p: Id, price: Json)
    requires Valid(s)
    ensures Lookup(s.records, c, p).Some? ==>
              Upsert(s, c, p, price)
              == Store(SaveById(s.records, Lookup(s.records, c, p).value.(price := price)), s.nextId)
    ensures Lookup(s.records, c, p).None? ==>
              Upsert(s, c, p, price)
              == Store(SaveById(s.records, CustomPrice(s.nextId, Some(c), Some(p), price)), s.nextId + 1)
  {
    match FindPair(s.records, c, p)
    case Some(i) =>
      var e := s.records[i].(price := price);
      assert FindId(s.records, e.id) == Some(i) by {
        forall j | 0 <= j < i ensures s.records[j].id != e.id { }
      }
    case None =>
      assert FindId(s.records, s.nextId).None?;
  }
}
