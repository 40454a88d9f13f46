/** `ProductPageSubscriber`: attaches to storefront products an extension
    holding the gross of the product's first catalog price, on the product
    page, in listings and in search results. */
module ProductPage {
  import opened Common

  /** One entry of a product's price collection. */
  datatype BasePrice = BasePrice(currencyId: Id, net: real, gross: real, linked: bool)

  /** A product's `price` field: None when there is no price collection. */
  type PriceField = Option<seq<BasePrice>>

  const ExtensionName: string := "custom_extension_field"

  const PageLoadedEvent: string := "Shopware\\Storefront\\Page\\Product\\ProductPageLoadedEvent"
  const ListingResultEvent: string := "Shopware\\Core\\Content\\Product\\Events\\ProductListingResultEvent"
  const SearchResultEvent: string := "Shopware\\Core\\Content\\Product\\Events\\ProductSearchResultEvent"

  /** `getSubscribedEvents`: event class -> handler. */
  const SubscribedEvents: map<string, string> := map[
    PageLoadedEvent := "onProductPageLoaded",
    ListingResultEvent := "onProductListingResult",
    SearchResultEvent := "onProductSearchResult"]

  /** The events the subscriber reacts to: the product page, listings and
      search results, and nothing else. */
  predicate Handles(eventClass: string)
    ensures Handles(eventClass) <==>
              eventClass == PageLoadedEvent || eventClass == ListingResultEvent || eventClass == SearchResultEvent
  {
    eventClass in SubscribedEvents
  }

  /** The `ArrayStruct(['original_price' => ...])` extension; None is null. */
  datatype Extension = Extension(originalPrice: Option<real>)

  /** A storefront product entity, extended in place. */
  class ProductEntity {
    const id: Id
    var extensions: map<string, Extension>

    constructor (id: Id, extensions: map<string, Extension>)
      ensures this.id == id && this.extensions == extensions
    {
      this.id := id;
      this.extensions := extensions;
    }
  }

  /** The product detail page. */
  class ProductPageView {
    const product: ProductEntity
    var extensions: map<string, Extension>

    constructor (product: ProductEntity, extensions: map<string, Extension>)
      ensures this.product == product && this.extensions == extensions
    {
      this.product := product;
      this.extensions := extensions;
    }
  }

  /** The gross of the first price of a collection, if there is one. */
  function FirstGross(field: PriceField): (r: Option<real>)
    ensures r.Some? <==> field.Some? && |field.value| > 0
  {
    if field.Some? && |field.value| > 0 then Some(field.value[0].gross) else None
  }

  /** `getProductPrice`: the gross of the product's first price. A product
      that is not found makes the next call fail on null; a missing
      collection or first price throws. */
  function ProductPrice(repository: map<Id, PriceField>, productId: Id): (r: Result<real>)
    ensures r.Ok? <==> productId in repository && FirstGross(repository[productId]).Some?
    ensures r.Ok? ==> r.value == FirstGross(repository[productId]).value
  {
    if productId !in repository then Err(TypeError)
    else match repository[productId]
      case None => Err(RuntimeError("Price collection not found."))
      case Some(prices) =>
        if |prices| == 0 then Err(RuntimeError("Price not found.")) else Ok(prices[0].gross)
  }

  /** What `getProductPrices` returns: each requested, found product id with
      a first price, mapped to that price's gross. */
  function PriceMap(repository: map<Id, PriceField>, ids: seq<Id>): (m: map<Id, real>)
    ensures forall id :: id in m <==> id in ids && id in repository && FirstGross(repository[id]).Some?
  {
    map id | id in ids && id in repository && FirstGross(repository[id]).Some? :: FirstGross(repository[id]).value
  }

  /** The products the search by ids finds, in request order. */
  function Found(repository: map<Id, PriceField>, ids: seq<Id>): (r: seq<Id>)
    ensures forall id :: id in r <==> id in ids && id in repository
  {
    if ids == [] then []
    else if ids[0] in repository then [ids[0]] + Found(repository, ids[1..])
    else Found(repository, ids[1..])
  }

  /** The ids of a list of products, in order. */
  function Ids(products: seq<ProductEntity>): (r: seq<Id>)
    ensures |r| == |products| && forall i :: 0 <= i < |products| ==> r[i] == products[i].id
  {
    if products == [] then [] else [products[0].id] + Ids(products[1..])
  }

  /** The value `addOriginalPrices` attaches: the mapped gross, or null. */
  function Attached(prices: map<Id, real>, id: Id): Extension
  {
    Extension(if id in prices then Some(prices[id]) else None)
  }

  /** The listing agrees with the detail page: a product in the listing
      gets the gross the detail page would attach, and null exactly where
      the detail page would fail. */
  lemma ListingAgreesWithDetail(repository: map<Id, PriceField>, ids: seq<Id>, id: Id)
    requires id in ids
    ensures ProductPrice(repository, id).Ok? <==> id in PriceMap(repository, ids)
    ensures ProductPrice(repository, id).Ok? ==>
              Attached(PriceMap(repository, ids), id) == Extension(Some(ProductPrice(repository, id).value))
    ensures ProductPrice(repository, id).Err? ==> Attached(PriceMap(repository, ids), id) == Extension(None)
  {
  }

  class ProductPageSubscriber {
    const productRepository: map<Id, PriceField>

    constructor (productRepository: map<Id, PriceField>)
      ensures this.productRepository == productRepository
    {
      this.productRepository := productRepository;
    }

    /** `getProductPrices`: one search for all ids, then a loop that keeps
        the first price's gross of each found product that has one. */
    method GetProductPrices(productIds: seq<Id>) returns (prices: map<Id, real>)
      ensures prices == PriceMap(productRepository, productIds)
    {
      var products := Found(productRepository, productIds);
      prices := map[];
      var i := 0;
      while i < |products|
        invariant 0 <= i <= |products|
        invariant forall id :: id in prices <==>
                    id in products[..i] && FirstGross(productRepository[id]).Some?
        invariant forall id :: id in prices ==> prices[id] == FirstGross(productRepository[id]).value
      {
        var id := products[i];
        assert products[..i + 1] == products[..i] + [id];
        match productRepository[id] {
          case None =>
          case Some(collection) =>
            if |collection| > 0 {
              prices := prices[id := collection[0].gross];
            }
        }
        i := i + 1;
      }
      assert products[..i] == products;
    }

    /** `addOriginalPrices`: nothing for an empty list; otherwise every
        product gets the extension with its mapped gross or null. A product
        listed twice gets the same extension twice. */
    method AddOriginalPrices(products: seq<ProductEntity>)
      modifies set p | p in products
      ensures forall p :: p in products ==>
                p.extensions == old(p.extensions)[ExtensionName :=
                  Attached(PriceMap(productRepository, Ids(products)), p.id)]
    {
      var productIds := CollectIds(products);
      if |productIds| == 0 {
        return;
      }
      var prices := GetProductPrices(productIds);
      ApplyPrices(products, prices);
    }

    /** The first loop of `addOriginalPrices`: the products' ids, in order. */
    static method CollectIds(products: seq<ProductEntity>) returns (productIds: seq<Id>)
      ensures productIds == Ids(products)
    {
      productIds := [];
      for i := 0 to |products|
        invariant productIds == Ids(products[..i])
      {
        assert products[..i + 1] == products[..i] + [products[i]];
        assert Ids(products[..i + 1]) == Ids(products[..i]) + [products[i].id];
        productIds := productIds + [products[i].id];
      }
      assert products[..|products|] == products;
    }

    /** The second loop of `addOriginalPrices`: each product in turn gets
        the extension for its id. */
    static method ApplyPrices(products: seq<ProductEntity>, prices: map<Id, real>)
      modifies set p | p in products
      ensures forall p :: p in products ==>
                p.extensions == old(p.extensions)[ExtensionName := Attached(prices, p.id)]
    {
      for i := 0 to |products|
        invariant forall p :: p in products ==>
                    p.extensions == if p in products[..i]
                                    then old(p.extensions)[ExtensionName := Attached(prices, p.id)]
                                    else old(p.extensions)
      {
        assert products[..i + 1] == products[..i] + [products[i]];
        var product := products[i];
        product.extensions := product.extensions[ExtensionName := Attached(prices, product.id)];
      }
      assert products[..|products|] == products;
    }

    /** `addOriginalPrice`: attach the first price's gross, or fail and
        change nothing. */
    method AddOriginalPrice(product: ProductEntity) returns (r: Result<()>)
      modifies product
      ensures r.Ok? <==> ProductPrice(productRepository, product.id).Ok?
      ensures r.Ok? ==> product.extensions == old(product.extensions)[ExtensionName :=
                          Extension(Some(ProductPrice(productRepository, product.id).value))]
      ensures r.Err? ==> product.extensions == old(product.extensions)
    {
      match ProductPrice(productRepository, product.id) {
        case Err(e) =>
          return Err(e);
        case Ok(gross) =>
          product.extensions := product.extensions[ExtensionName := Extension(Some(gross))];
          return Ok(());
      }
    }

    /** `onProductPageLoaded`: extend the page's product, then give the page
        the very extension the product now carries. */
    method OnProductPageLoaded(page: ProductPageView) returns (r: Result<()>)
      modifies page, page.product
      ensures r.Ok? <==> ProductPrice(productRepository, page.product.id).Ok?
      ensures r.Ok? ==>
                && page.product.extensions == old(page.product.extensions)[ExtensionName :=
                     Extension(Some(ProductPrice(productRepository, page.product.id).value))]
                && page.extensions == old(page.extensions)[ExtensionName := page.product.extensions[ExtensionName]]
      ensures r.Err? ==> page.product.extensions == old(page.product.extensions)
                         && page.extensions == old(page.extensions)
    {
      var product := page.product;
      r := AddOriginalPrice(product);
      if r.Err? {
        return;
      }
      page.extensions := page.extensions[ExtensionName := product.extensions[ExtensionName]];
    }

    /** `onProductListingResult`. */
    method OnProductListingResult(products: seq<ProductEntity>)
      modifies set p | p in products
      ensures forall p :: p in products ==>
                p.extensions == old(p.extensions)[ExtensionName :=
                  Attached(PriceMap(productRepository, Ids(products)), p.id)]
    {
      AddOriginalPrices(products);
    }

    /** `onProductSearchResult`: handled exactly as a listing. */
    method OnProductSearchResult(products: seq<ProductEntity>)
      modifies set p | p in products
      ensures forall p :: p in products ==>
                p.extensions == old(p.extensions)[ExtensionName :=
                  Attached(PriceMap(productRepository, Ids(products)), p.id)]
    {
      AddOriginalPrices(products);
    }
  }
}
