/*
 * backend/accounts/views_product.py: the guards of the create view, the
 * defaults of the update view, the statistics arithmetic and the search
 * loop that maps vector-store ids back to products. The vector search
 * itself is a parameter: the ids it returns, in rank order.
 */
module ProductViews {
  import opened Common
  import opened Uploads
  import opened Catalog
  import opened ProductSerializers

  datatype ViewError =
    | NoBusiness                                // 400 "You must register a business first"
    | LimitReached(existing: nat)               // 400 "Maximum 10 products allowed per business"
    | NotFound                                  // 404 from `get_object`
    | FieldRequired                             // a full (non-partial) update without every field
    | DescriptionInvalid(textError: TextError)
    | ImagesInvalid(imagesError: ImagesError)
    | WriteFailed(storeError: StoreError)

  /**
   * `ProductListCreateView.create`: no business, then the product limit,
   * both before the input is looked at; then `ProductCreateUpdateSerializer`
   * validates the input and `ProductSerializer` validates it again (the
   * stripped description, a non-empty accepted image list and a business
   * under its limit all pass again); then the product is created.
   */
  method CreateView(products: ProductTable, images: ImageTable, vectors: VectorStore, businesses: seq<Business>,
                    userId: nat, username: string, description: string, imageList: seq<string>,
                    suffix: string, decode: Decoder) returns (r: Result<Product, ViewError>)
    requires CatalogInvariant(businesses, products.rows, images.rows)
    modifies products, images, vectors
    ensures CatalogInvariant(businesses, products.rows, images.rows)
    ensures BusinessOfUser(businesses, userId).None? <==> r == Err(NoBusiness)
    ensures BusinessOfUser(businesses, userId).Some? ==>
      var count := ProductCount(old(products.rows), BusinessOfUser(businesses, userId).value.id);
      (count >= MaxProductsPerBusiness <==> r == Err(LimitReached(count)))
    ensures r.Ok? <==>
      && BusinessOfUser(businesses, userId).Some?
      && ProductCount(old(products.rows), BusinessOfUser(businesses, userId).value.id) < MaxProductsPerBusiness
      && ValidateTenLineText(description).Ok? && ImageListAccepted(imageList, decode)
      && CreateSucceeds(BusinessOfUser(businesses, userId).value, Strip(description), imageList, suffix, decode,
                        businesses, old(products.rows), old(products.nextId), old(images.rows))
    ensures r.Ok? ==>
      && r.value == NewProduct(BusinessOfUser(businesses, userId).value, Strip(description), suffix).(id := old(products.nextId))
      && products.rows == old(products.rows) + [r.value]
      && vectors.writes == old(vectors.writes) + [VectorWrite(ProductCollection, r.value.chromaId, r.value.description, username)]
      && |old(images.rows)| <= |images.rows|
      && images.rows[..|old(images.rows)|] == old(images.rows)
      && Unstamped(images.rows[|old(images.rows)|..]) == PlannedImages(r.value.id, imageList, decode)
    ensures r.Err? && (!r.error.WriteFailed? || r.error.storeError.ProductRejected?) ==>
      products.rows == old(products.rows) && images.rows == old(images.rows) && vectors.writes == old(vectors.writes)
    ensures r.Err? && r.error.WriteFailed? && !r.error.storeError.ProductRejected? ==>
      && products.rows == old(products.rows) +
           [NewProduct(BusinessOfUser(businesses, userId).value, Strip(description), suffix).(id := old(products.nextId))]
      && |old(images.rows)| <= |images.rows| && images.rows[..|old(images.rows)|] == old(images.rows)
  {
    var business := BusinessOfUser(businesses, userId);
    if business.None? {
      return Err(NoBusiness);
    }
    var count := ProductCount(products.rows, business.value.id);
    if count >= 10 {
      return Err(LimitReached(count));
    }
    var checkedDescription := ValidateTenLineText(description);
    if checkedDescription.Err? {
      return Err(DescriptionInvalid(checkedDescription.error));
    }
    var checkedImages := ValidateImages(imageList, decode);
    if checkedImages.Err? {
      return Err(ImagesInvalid(checkedImages.error));
    }
    // `ProductSerializer` validates again; every check passes
    ValidateTenLineTextIdempotent(description);
    ImageListAcceptedIsUploadAccepted(imageList, decode);
    var descriptionAgain := ValidateTenLineText(checkedDescription.value);
    var imagesAgain := ValidateImagesUpload(imageList, decode);
    var attrs := ValidateProduct(true, Some(count), Some(imageList));
    assert descriptionAgain == checkedDescription && imagesAgain.Ok? && attrs.Ok?;
    var created := Create(products, images, vectors, businesses, business.value, username,
                          descriptionAgain.value, imageList, suffix, decode);
    if created.Err? {
      return Err(WriteFailed(created.error));
    }
    return Ok(created.value);
  }

  /** The position of product `productId` among the products of business `businessId`, if it is one of them. */
  function FindOwnedProduct(products: seq<Product>, businessId: nat, productId: nat): (r: Option<nat>)
    ensures r.Some? ==> r.value < |products| && products[r.value].id == productId && products[r.value].business == businessId
    ensures r.None? <==> forall k | 0 <= k < |products| :: !(products[k].id == productId && products[k].business == businessId)
  {
    if products == [] then None
    else
      var n := |products| - 1;
      if products[n].id == productId && products[n].business == businessId then Some(n)
      else FindOwnedProduct(products[..n], businessId, productId)
  }

  /** `validated_data.get('product_description', instance.product_description)`. */
  function DescriptionForUpdate(current: Product, description: Option<string>): (d: string)
    ensures description.None? ==> d == current.description
    ensures description.Some? ==> d == description.value
  {
    if description.Some? then description.value else current.description
  }

  /**
   * `ProductCreateUpdateSerializer` on an update: each given field passes its
   * validator; the stripped description, if given, is handed on.
   */
  method CheckUpdateInput(description: Option<string>, imageList: Option<seq<string>>, decode: Decoder)
    returns (r: Result<Option<string>, ViewError>)
    ensures r.Ok? <==>
      (description.Some? ==> ValidateTenLineText(description.value).Ok?) &&
      (imageList.Some? ==> ImageListAccepted(imageList.value, decode))
    ensures r.Ok? ==> r.value == (if description.Some? then Some(Strip(description.value)) else None)
    ensures r.Ok? && description.Some? ==> Strip(r.value.value) == Strip(description.value)
    ensures r.Err? ==> r.error.DescriptionInvalid? || r.error.ImagesInvalid?
    ensures r.Err? && r.error.DescriptionInvalid? ==>
      description.Some? && ValidateTenLineText(description.value) == Err(r.error.textError)
  {
    var given := None;
    if description.Some? {
      var checkedDescription := ValidateTenLineText(description.value);
      if checkedDescription.Err? {
        return Err(DescriptionInvalid(checkedDescription.error));
      }
      StripIdempotent(description.value);
      given := Some(checkedDescription.value);
    }
    if imageList.Some? {
      var checkedImages := ValidateImages(imageList.value, decode);
      if checkedImages.Err? {
        return Err(ImagesInvalid(checkedImages.error));
      }
    }
    return Ok(given);
  }

  /**
   * Every check of the update view on the request passes: a full update has
   * both fields, a given image list is accepted, and the description the
   * update ends with (the given one, else the stored one) is accepted.
   */
  predicate UpdateAccepted(current: Product, partial: bool, description: Option<string>, imageList: Option<seq<string>>,
                           decode: Decoder)
  {
    && (partial || (description.Some? && imageList.Some?))
    && (imageList.Some? ==> ImageListAccepted(imageList.value, decode))
    && ValidateTenLineText(DescriptionForUpdate(current, description)).Ok?
  }

  /**
   * The checks `ProductDetailView.update` makes on the request for stored
   * product `current`: a full update needs both fields, the given fields
   * pass `ProductCreateUpdateSerializer`, and the description, defaulted to
   * the stored one, passes `ProductSerializer`. Yields that description,
   * stripped.
   */
  method CheckUpdate(current: Product, partial: bool, description: Option<string>, imageList: Option<seq<string>>,
                     decode: Decoder) returns (r: Result<string, ViewError>)
    ensures !partial && (description.None? || imageList.None?) ==> r == Err(FieldRequired)
    ensures r.Err? ==> r.error.FieldRequired? || r.error.DescriptionInvalid? || r.error.ImagesInvalid?
    ensures r.Ok? <==> UpdateAccepted(current, partial, description, imageList, decode)
    ensures r.Ok? ==> r.value == Strip(DescriptionForUpdate(current, description))
  {
    if !partial && (description.None? || imageList.None?) {
      return Err(FieldRequired);
    }
    var given := CheckUpdateInput(description, imageList, decode);
    if given.Err? {
      return Err(given.error);
    }
    if description.Some? {
      ValidateTenLineTextIdempotent(description.value);
    }
    var descriptionAgain := ValidateTenLineText(DescriptionForUpdate(current, given.value));
    if descriptionAgain.Err? {
      return Err(DescriptionInvalid(descriptionAgain.error));
    }
    return Ok(descriptionAgain.value);
  }

  /**
   * `ProductDetailView.update`: the product must belong to the requesting
   * user's business; a full update needs both fields; the given fields are
   * validated; the description defaults to the stored one and is validated
   * again by `ProductSerializer`; images are forwarded only when given.
   */
  method UpdateView(products: ProductTable, images: ImageTable, vectors: VectorStore, businesses: seq<Business>,
                    userId: nat, username: string, productId: nat, partial: bool,
                    description: Option<string>, imageList: Option<seq<string>>,
                    decode: Decoder) returns (r: Result<Product, ViewError>)
    requires CatalogInvariant(businesses, products.rows, images.rows)
    modifies products, images, vectors
    ensures CatalogInvariant(businesses, products.rows, images.rows)
    ensures r == Err(NotFound) <==>
      BusinessOfUser(businesses, userId).None? ||
      FindOwnedProduct(old(products.rows), BusinessOfUser(businesses, userId).value.id, productId).None?
    ensures r != Err(NotFound) && !partial && (description.None? || imageList.None?) ==> r == Err(FieldRequired)
    ensures r.Ok? <==>
      && BusinessOfUser(businesses, userId).Some?
      && FindOwnedProduct(old(products.rows), BusinessOfUser(businesses, userId).value.id, productId).Some?
      && UpdateViewSucceeds(old(products.rows), FindOwnedProduct(old(products.rows), BusinessOfUser(businesses, userId).value.id, productId).value,
                            partial, description, imageList, decode, businesses, old(images.rows))
    ensures r.Ok? ==>
      var i := FindOwnedProduct(old(products.rows), BusinessOfUser(businesses, userId).value.id, productId).value;
      && r.value == old(products.rows[i]).(description := Strip(DescriptionForUpdate(old(products.rows[i]), description)))
      && r.value.id == productId
      && products.rows == old(products.rows)[i := r.value]
      && vectors.writes == old(vectors.writes) + [VectorWrite(ProductCollection, r.value.chromaId, r.value.description, username)]
    ensures r.Ok? && imageList.None? ==> images.rows == old(images.rows)
    ensures r.Ok? && imageList.Some? ==>
      var kept := DropImagesOf(old(images.rows), productId);
      && |kept| <= |images.rows| && images.rows[..|kept|] == kept
      && Unstamped(images.rows[|kept|..]) == PlannedImages(productId, imageList.value, decode)
    ensures r.Err? && (!r.error.WriteFailed? || r.error.storeError.ProductRejected?) ==>
      products.rows == old(products.rows) && images.rows == old(images.rows) && vectors.writes == old(vectors.writes)
    ensures r.Err? && r.error.WriteFailed? && !r.error.storeError.ProductRejected? ==>
      var i := FindOwnedProduct(old(products.rows), BusinessOfUser(businesses, userId).value.id, productId).value;
      var revised := old(products.rows[i]).(description := Strip(DescriptionForUpdate(old(products.rows[i]), description)));
      && imageList.Some?
      && products.rows == old(products.rows)[i := revised]
      && vectors.writes == old(vectors.writes) + [VectorWrite(ProductCollection, revised.chromaId, revised.description, username)]
  {
    var business := BusinessOfUser(businesses, userId);
    if business.None? {
      return Err(NotFound);
    }
    var found := FindOwnedProduct(products.rows, business.value.id, productId);
    if found.None? {
      return Err(NotFound);
    }
    var i := found.value;
    var checked := CheckUpdate(products.rows[i], partial, description, imageList, decode);
    if checked.Err? {
      return Err(checked.error);
    }
    var text := checked.value;
    ghost var current := products.rows[i];
    var updated := Update(products, images, vectors, businesses, i, username, Some(text), imageList, decode);
    if updated.Err? {
      return Err(WriteFailed(updated.error));
    }
    assert updated.value == Revised(current, Some(text));
    return Ok(updated.value);
  }

  /**
   * The update view runs to the end on stored product `i`: the request
   * passes every check, and `update` with the checked description succeeds.
   */
  predicate UpdateViewSucceeds(products: seq<Product>, i: nat, partial: bool, description: Option<string>,
                               imageList: Option<seq<string>>, decode: Decoder, businesses: seq<Business>,
                               images: seq<ProductImage>)
    requires i < |products|
  {
    && UpdateAccepted(products[i], partial, description, imageList, decode)
    && UpdateSucceeds(i, Some(Strip(DescriptionForUpdate(products[i], description))), imageList, decode,
                      businesses, products, images)
  }

  // ---- statistics ------------------------------------------------------------

  datatype StatsResponse =
    | NoBusinessRegistered   // 404 with `has_business: false`
    | Stats(totalProducts: nat, maxProducts: nat, remainingSlots: int, canAddMore: bool)

  /** `ProductStatsView.get`. */
  function ProductStats(businesses: seq<Business>, products: seq<Product>, userId: nat): (s: StatsResponse)
    ensures s.NoBusinessRegistered? <==> BusinessOfUser(businesses, userId).None?
    ensures s.Stats? ==> s.totalProducts == ProductCount(products, BusinessOfUser(businesses, userId).value.id)
    ensures s.Stats? ==> s.maxProducts == MaxProductsPerBusiness && s.totalProducts + s.remainingSlots == s.maxProducts
  {
    match BusinessOfUser(businesses, userId)
    case None => NoBusinessRegistered
    case Some(b) =>
      var count := ProductCount(products, b.id);
      var remaining := 10 - count;
      Stats(count, 10, remaining, remaining > 0)
  }

  /** `can_add_more` is exactly the create view's limit guard passing. */
  lemma {:induction false} CanAddMoreMatchesCreateGuard(businesses: seq<Business>, products: seq<Product>, userId: nat)
    requires BusinessOfUser(businesses, userId).Some?
    ensures ProductStats(businesses, products, userId).canAddMore <==>
      ProductCount(products, BusinessOfUser(businesses, userId).value.id) < MaxProductsPerBusiness
  {
  }

  /** While the quota holds, the remaining slots never go negative. */
  lemma {:induction false} RemainingSlotsNonNegative(businesses: seq<Business>, products: seq<Product>,
                                                     images: seq<ProductImage>, userId: nat)
    requires CatalogInvariant(businesses, products, images)
    requires BusinessOfUser(businesses, userId).Some?
    ensures 0 <= ProductStats(businesses, products, userId).remainingSlots <= MaxProductsPerBusiness
  {
    assert ProductCount(products, BusinessOfUser(businesses, userId).value.id) <= MaxProductsPerBusiness;
  }

  // ---- search --------------------------------------------------------------

  /** `Product.objects.filter(chroma_id=id).first()`. */
  function ProductWithChromaId(products: seq<Product>, id: string): (r: Option<Product>)
    ensures r.None? <==> forall k | 0 <= k < |products| :: products[k].chromaId != id
    ensures r.Some? ==> r.value in products && r.value.chromaId == id
  {
    if products == [] then None
    else if products[0].chromaId == id then Some(products[0])
    else
      var rest := ProductWithChromaId(products[1..], id);
      assert forall k | 1 <= k < |products| :: products[k] == products[1..][k - 1];
      rest
  }

  /** The products the search loop collects, in result order; ids matching no product are dropped. */
  function SearchHits(ids: seq<string>, products: seq<Product>): (hits: seq<Product>)
    ensures |hits| <= |ids|
    ensures forall k | 0 <= k < |hits| :: hits[k] in products
  {
    if ids == [] then []
    else
      var last := ProductWithChromaId(products, ids[|ids| - 1]);
      SearchHits(ids[..|ids| - 1], products) + (if last.Some? then [last.value] else [])
  }

  /** With unique vector ids, each stored product is found by its own id, and an unknown id finds nothing. */
  lemma {:induction false} SearchFindsStoredProduct(products: seq<Product>, k: nat, unknown: string)
    requires ProductChromaUnique(products) && k < |products|
    requires forall j | 0 <= j < |products| :: products[j].chromaId != unknown
    ensures SearchHits([products[k].chromaId], products) == [products[k]]
    ensures SearchHits([unknown], products) == []
  {
    var r := ProductWithChromaId(products, products[k].chromaId);
    var j :| 0 <= j < |products| && products[j] == r.value;
    assert [products[k].chromaId][..0] == [] && [unknown][..0] == [];
  }

  datatype SearchResponse =
    | QueryRequired                                // 400
    | Results(products: seq<Product>, count: nat)

  /** `ProductSearchView.post`: an empty query is refused before any search; otherwise each result is mapped. */
  method Search(query: string, resultIds: seq<string>, products: seq<Product>) returns (response: SearchResponse)
    ensures query == [] <==> response == QueryRequired
    ensures response.Results? ==> response.products == SearchHits(resultIds, products)
    ensures response.Results? ==> response.count == |response.products| <= |resultIds|
  {
    if query == [] {
      return QueryRequired;
    }
    var found: seq<Product> := [];
    var k := 0;
    while k < |resultIds|
      invariant 0 <= k <= |resultIds|
      invariant found == SearchHits(resultIds[..k], products)
    {
      assert resultIds[..k + 1][..k] == resultIds[..k];
      var product := ProductWithChromaId(products, resultIds[k]);
      if product.Some? {
        found := found + [product.value];
      }
      k := k + 1;
    }
    assert resultIds[..k] == resultIds;
    return Results(found, |found|);
  }
}
