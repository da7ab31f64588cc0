/*
 * The business catalogue tables (backend/accounts/models_business.py and
 * backend/accounts/models_product.py): one business per user, at most ten
 * products per business, at most four images per product with at most
 * 1 MiB of image bytes in total, image slots 0..3 unique per product.
 *
 * Every `save` runs Django's `full_clean` first, modelled as three checks:
 *   - the field checks (`blank=False` means non-empty, `max_length` on
 *     the CharFields, foreign-key existence; the `max_length` of the two
 *     TextFields is not a model validator, and the binary columns are not
 *     editable, so Django skips both);
 *   - the model's own `clean`;
 *   - `validate_unique` against the other rows.
 * Each table is a class over a sequence of rows in insertion order. The
 * vector store the serializers write to is a log of upserts.
 */
module Catalog {
  import opened Common
  import opened Uploads

  const MaxProductsPerBusiness := 10
  const MaxImagesPerProduct := 4
  const MaxImagesTotalBytes := 1024 * 1024
  const MaxLogoBytes := 200 * 1024
  const MaxImageOrder := 3
  const ChromaIdMaxLength := 255
  const FilenameMaxLength := 255
  const ContentTypeMaxLength := 100

  datatype Business = Business(
    id: nat,
    user: nat,
    info: string,
    logo: Option<seq<Byte>>,
    logoFilename: Option<string>,
    logoContentType: Option<string>,
    chromaId: string)

  datatype Product = Product(id: nat, business: nat, description: string, chromaId: string)

  datatype ProductImage = ProductImage(
    id: nat,
    product: nat,
    data: seq<Byte>,
    filename: string,
    contentType: string,
    order: int)

  /**
   * `validate_image_size`: at most 200 KiB. No field lists it among its
   * validators, so `full_clean` never runs it; it is kept as the bound the
   * logo serializer's own size check is compared with. The source reads
   * `image.size`, which the stored bytes do not have; here it is given the
   * byte length.
   */
  function ValidateImageSize(size: nat): (ok: bool)
    ensures ok <==> size <= MaxLogoBytes
    ensures ok ==> size <= 204800
  {
    !(size > 200 * 1024)
  }

  /** What a model `clean` refuses; the first failing check decides. */
  datatype CleanError =
    | LinesExceeded(lines: nat)
    | TooManyProducts(existing: nat)
    | TooManyImages(existing: nat)
    | ImagesTooLarge(total: int)
    | NotAnImage
    | OrderOutOfRange

  /** `Business.clean`: non-empty info must stay within ten lines once stripped. */
  function BusinessClean(b: Business): (r: Option<CleanError>)
    ensures r.None? <==> b.info == [] || LineCount(Strip(b.info)) <= MaxLines
    ensures r.Some? ==> r.value == LinesExceeded(LineCount(Strip(b.info)))
  {
    match LineLimitError(b.info)
    case None => None
    case Some(n) => Some(LinesExceeded(n))
  }

  /**
   * `Product.clean`: the line limit, then, for a row not yet saved, the
   * quota over the `existing` products of its business.
   */
  function ProductClean(p: Product, isCreate: bool, existing: nat): (r: Option<CleanError>)
    ensures r.None? <==> LineLimitError(p.description).None? && (isCreate ==> existing < MaxProductsPerBusiness)
    ensures LineLimitError(p.description).Some? ==> r == Some(LinesExceeded(LineLimitError(p.description).value))
    ensures LineLimitError(p.description).None? && r.Some? ==> r == Some(TooManyProducts(existing))
  {
    match LineLimitError(p.description)
    case Some(n) => Some(LinesExceeded(n))
    case None =>
      if isCreate && existing >= MaxProductsPerBusiness then Some(TooManyProducts(existing)) else None
  }

  /**
   * `ProductImage.clean` given what it queries: the product's image count and
   * byte total, and for a saved row the stored size it replaces (`oldSize`,
   * zero on creation). Empty data skips the size check.
   */
  function ImageClean(img: ProductImage, isCreate: bool, existingCount: nat, existingTotal: nat, oldSize: nat): (r: Option<CleanError>)
    ensures r.None? <==>
      && (isCreate ==> existingCount < MaxImagesPerProduct)
      && (img.data != [] ==> existingTotal - oldSize + |img.data| <= MaxImagesTotalBytes)
      && (img.contentType == [] || IsImageType(img.contentType))
      && 0 <= img.order <= MaxImageOrder
    ensures isCreate && existingCount >= MaxImagesPerProduct ==> r == Some(TooManyImages(existingCount))
    ensures ((isCreate ==> existingCount < MaxImagesPerProduct) && img.data != [] &&
             existingTotal - oldSize + |img.data| > MaxImagesTotalBytes) ==>
      r == Some(ImagesTooLarge(existingTotal - oldSize + |img.data|))
  {
    if isCreate && existingCount >= 4 then Some(TooManyImages(existingCount))
    else if img.data != [] && existingTotal - oldSize + |img.data| > 1024 * 1024 then
      Some(ImagesTooLarge(existingTotal - oldSize + |img.data|))
    else if img.contentType != [] && !StartsWith(img.contentType, "image/") then Some(NotAnImage)
    else if img.order < 0 || img.order > 3 then Some(OrderOutOfRange)
    else None
  }

  /** Exactly 1 MiB in total is accepted; one byte more is not. */
  lemma {:induction false} OneMiBBoundary(img: ProductImage, existingTotal: nat)
    requires img.data != [] && IsImageType(img.contentType) && 0 <= img.order <= MaxImageOrder
    ensures existingTotal + |img.data| == MaxImagesTotalBytes ==> ImageClean(img, true, 0, existingTotal, 0).None?
    ensures existingTotal + |img.data| == MaxImagesTotalBytes + 1 ==> ImageClean(img, true, 0, existingTotal, 0).Some?
  {
  }

  // ---- queries -------------------------------------------------------------

  /** `Product.objects.filter(business=b).count()`. */
  function ProductCount(products: seq<Product>, business: nat): (n: nat)
    ensures n <= |products|
  {
    if products == [] then 0
    else ProductCount(products[..|products| - 1], business) + (if products[|products| - 1].business == business then 1 else 0)
  }

  /** `ProductImage.objects.filter(product=p).count()`. */
  function ImageCount(images: seq<ProductImage>, product: nat): (n: nat)
    ensures n <= |images|
  {
    if images == [] then 0
    else ImageCount(images[..|images| - 1], product) + (if images[|images| - 1].product == product then 1 else 0)
  }

  /** `Product.get_total_images_size`: the byte lengths of the product's images, summed. */
  function ImagesTotal(images: seq<ProductImage>, product: nat): nat
  {
    if images == [] then 0
    else ImagesTotal(images[..|images| - 1], product) + (if images[|images| - 1].product == product then |images[|images| - 1].data| else 0)
  }

  /** A business has no products iff none of the rows names it. */
  lemma {:induction false} ProductCountZero(products: seq<Product>, business: nat)
    ensures ProductCount(products, business) == 0 <==> forall j | 0 <= j < |products| :: products[j].business != business
    decreases |products|
  {
    if products != [] {
      var n := |products| - 1;
      ProductCountZero(products[..n], business);
      assert forall j | 0 <= j < n :: products[..n][j] == products[j];
    }
  }

  /** A product has no images iff none of the rows names it. */
  lemma {:induction false} ImageCountZero(images: seq<ProductImage>, product: nat)
    ensures ImageCount(images, product) == 0 <==> forall j | 0 <= j < |images| :: images[j].product != product
    decreases |images|
  {
    if images != [] {
      var n := |images| - 1;
      ImageCountZero(images[..n], product);
      assert forall j | 0 <= j < n :: images[..n][j] == images[j];
    }
  }

  /** A product's total is zero iff every one of its images holds no bytes. */
  lemma {:induction false} ImagesTotalZero(images: seq<ProductImage>, product: nat)
    ensures ImagesTotal(images, product) == 0 <==> forall j | 0 <= j < |images| && images[j].product == product :: images[j].data == []
    decreases |images|
  {
    if images != [] {
      var n := |images| - 1;
      ImagesTotalZero(images[..n], product);
      assert forall j | 0 <= j < n :: images[..n][j] == images[j];
    }
  }

  predicate HasBusiness(businesses: seq<Business>, id: nat)
  {
    exists j | 0 <= j < |businesses| :: businesses[j].id == id
  }

  /** `request.user.business` and `Business.objects.filter(user_id=u).first()`: the business of user `u`, if any. */
  function BusinessOfUser(businesses: seq<Business>, user: int): (r: Option<Business>)
    ensures r.None? <==> forall j | 0 <= j < |businesses| :: businesses[j].user != user
    ensures r.Some? ==> r.value in businesses && r.value.user == user
  {
    if businesses == [] then None
    else if businesses[0].user == user then Some(businesses[0])
    else
      var rest := BusinessOfUser(businesses[1..], user);
      assert forall j | 1 <= j < |businesses| :: businesses[j] == businesses[1..][j - 1];
      rest
  }

  /** With one business per user, the lookup by a stored row's user finds that row. */
  lemma {:induction false} BusinessOfUserFindsRow(businesses: seq<Business>, k: nat)
    requires BusinessesUnique(businesses) && k < |businesses|
    ensures BusinessOfUser(businesses, businesses[k].user) == Some(businesses[k])
  {
    var r := BusinessOfUser(businesses, businesses[k].user);
    var j :| 0 <= j < |businesses| && businesses[j] == r.value;
  }

  predicate HasProduct(products: seq<Product>, id: nat)
  {
    exists j | 0 <= j < |products| :: products[j].id == id
  }

  // ---- full_clean ----------------------------------------------------------

  predicate BusinessFieldsOk(b: Business)
  {
    && b.info != []
    && (b.logoFilename.Some? ==> |b.logoFilename.value| <= FilenameMaxLength)
    && (b.logoContentType.Some? ==> |b.logoContentType.value| <= ContentTypeMaxLength)
    && b.chromaId != [] && |b.chromaId| <= ChromaIdMaxLength
  }

  predicate ProductFieldsOk(p: Product, businesses: seq<Business>)
  {
    && p.description != []
    && p.chromaId != [] && |p.chromaId| <= ChromaIdMaxLength
    && HasBusiness(businesses, p.business)
  }

  predicate ImageFieldsOk(img: ProductImage, products: seq<Product>)
  {
    && img.filename != [] && |img.filename| <= FilenameMaxLength
    && img.contentType != [] && |img.contentType| <= ContentTypeMaxLength
    && img.order >= 0
    && HasProduct(products, img.product)
  }

  /** `validate_unique` for a business: `user` (one-to-one) and `chroma_id`, against rows other than `selfId`. */
  predicate BusinessUnique(b: Business, businesses: seq<Business>, selfId: Option<nat>)
  {
    forall j | 0 <= j < |businesses| && Some(businesses[j].id) != selfId ::
      businesses[j].user != b.user && businesses[j].chromaId != b.chromaId
  }

  predicate ProductUnique(p: Product, products: seq<Product>, selfId: Option<nat>)
  {
    forall j | 0 <= j < |products| && Some(products[j].id) != selfId :: products[j].chromaId != p.chromaId
  }

  /** `unique_together = [['product', 'order']]`. */
  predicate SlotFree(img: ProductImage, images: seq<ProductImage>, selfId: Option<nat>)
  {
    forall j | 0 <= j < |images| && Some(images[j].id) != selfId ::
      !(images[j].product == img.product && images[j].order == img.order)
  }

  predicate BusinessFullClean(b: Business, businesses: seq<Business>, selfId: Option<nat>)
  {
    BusinessFieldsOk(b) && BusinessClean(b).None? && BusinessUnique(b, businesses, selfId)
  }

  predicate ProductFullClean(p: Product, businesses: seq<Business>, products: seq<Product>, selfId: Option<nat>)
  {
    && ProductFieldsOk(p, businesses)
    && ProductClean(p, selfId.None?, ProductCount(products, p.business)).None?
    && ProductUnique(p, products, selfId)
  }

  /** `full_clean` of an image about to be created. */
  predicate ImageCreateClean(img: ProductImage, products: seq<Product>, images: seq<ProductImage>)
  {
    && ImageFieldsOk(img, products)
    && ImageClean(img, true, ImageCount(images, img.product), ImagesTotal(images, img.product), 0).None?
    && SlotFree(img, images, None)
  }

  /** `full_clean` of the saved image in row `i`, replaced by `img`. */
  predicate ImageSaveClean(img: ProductImage, products: seq<Product>, images: seq<ProductImage>, i: nat)
    requires i < |images|
  {
    && ImageFieldsOk(img, products)
    && ImageClean(img, false, ImageCount(images, img.product), ImagesTotal(images, img.product), |images[i].data|).None?
    && SlotFree(img, images, Some(images[i].id))
  }

  // ---- table invariants ----------------------------------------------------

  ghost predicate ProductQuota(products: seq<Product>)
  {
    forall b :: ProductCount(products, b) <= MaxProductsPerBusiness
  }

  ghost predicate ImageQuota(images: seq<ProductImage>)
  {
    forall p :: ImageCount(images, p) <= MaxImagesPerProduct && ImagesTotal(images, p) <= MaxImagesTotalBytes
  }

  predicate OrdersInRange(images: seq<ProductImage>)
  {
    forall i | 0 <= i < |images| :: 0 <= images[i].order <= MaxImageOrder
  }

  predicate SlotsUnique(images: seq<ProductImage>)
  {
    forall i, j | 0 <= i < j < |images| :: images[i].product == images[j].product ==> images[i].order != images[j].order
  }

  predicate BusinessesUnique(businesses: seq<Business>)
  {
    forall i, j | 0 <= i < j < |businesses| ::
      businesses[i].user != businesses[j].user && businesses[i].chromaId != businesses[j].chromaId
  }

  predicate ProductChromaUnique(products: seq<Product>)
  {
    forall i, j | 0 <= i < j < |products| :: products[i].chromaId != products[j].chromaId
  }

  predicate ProductsReferenceBusinesses(businesses: seq<Business>, products: seq<Product>)
  {
    forall i | 0 <= i < |products| :: HasBusiness(businesses, products[i].business)
  }

  predicate ImagesReferenceProducts(products: seq<Product>, images: seq<ProductImage>)
  {
    forall i | 0 <= i < |images| :: HasProduct(products, images[i].product)
  }

  /** What `full_clean` before every save keeps true of the three tables. */
  ghost predicate CatalogInvariant(businesses: seq<Business>, products: seq<Product>, images: seq<ProductImage>)
  {
    && BusinessesUnique(businesses)
    && ProductChromaUnique(products)
    && ProductsReferenceBusinesses(businesses, products)
    && ProductQuota(products)
    && ImagesReferenceProducts(products, images)
    && ImageQuota(images)
    && OrdersInRange(images)
    && SlotsUnique(images)
  }

  lemma EmptyCatalog()
    ensures CatalogInvariant([], [], [])
  {
    forall b ensures ProductCount([], b) <= MaxProductsPerBusiness { }
    forall p ensures ImageCount([], p) <= MaxImagesPerProduct && ImagesTotal([], p) <= MaxImagesTotalBytes { }
  }

  // ---- counting lemmas -----------------------------------------------------

  lemma {:induction false} ProductCountAppend(products: seq<Product>, p: Product, b: nat)
    ensures ProductCount(products + [p], b) == ProductCount(products, b) + (if p.business == b then 1 else 0)
  {
    assert (products + [p])[..|products|] == products;
  }

  lemma {:induction false} ImageSumsAppend(images: seq<ProductImage>, img: ProductImage, q: nat)
    ensures ImageCount(images + [img], q) == ImageCount(images, q) + (if img.product == q then 1 else 0)
    ensures ImagesTotal(images + [img], q) == ImagesTotal(images, q) + (if img.product == q then |img.data| else 0)
  {
    assert (images + [img])[..|images|] == images;
  }

  /** Replacing a product by one of the same business leaves every business's count as it was. */
  lemma {:induction false} ProductCountReplace(products: seq<Product>, i: nat, p: Product, b: nat)
    requires i < |products| && products[i].business == p.business
    ensures ProductCount(products[i := p], b) == ProductCount(products, b)
    decreases |products|
  {
    var n := |products| - 1;
    if i < n {
      ProductCountReplace(products[..n], i, p, b);
      assert products[i := p][..n] == products[..n][i := p];
    } else {
      assert products[i := p][..n] == products[..n];
    }
  }

  /** Replacing an image by one of the same product swaps its size in that product's total. */
  lemma {:induction false} ImageSumsReplace(images: seq<ProductImage>, i: nat, img: ProductImage, q: nat)
    requires i < |images| && images[i].product == img.product
    ensures ImageCount(images[i := img], q) == ImageCount(images, q)
    ensures ImagesTotal(images[i := img], q) + (if q == img.product then |images[i].data| else 0)
         == ImagesTotal(images, q) + (if q == img.product then |img.data| else 0)
    decreases |images|
  {
    var n := |images| - 1;
    if i < n {
      ImageSumsReplace(images[..n], i, img, q);
      assert images[i := img][..n] == images[..n][i := img];
    } else {
      assert images[i := img][..n] == images[..n];
    }
  }

  /** A product's images never hold more bytes than its total counts: each one is part of the sum. */
  lemma {:induction false} ImageWithinTotal(images: seq<ProductImage>, i: nat)
    requires i < |images|
    ensures |images[i].data| <= ImagesTotal(images, images[i].product)
    decreases |images|
  {
    var n := |images| - 1;
    if i < n {
      ImageWithinTotal(images[..n], i);
      assert images[..n][i] == images[i];
    }
  }

  /** `instance.images.all().delete()`: the rows of every other product, in order. */
  function DropImagesOf(images: seq<ProductImage>, product: nat): (r: seq<ProductImage>)
    ensures |r| <= |images|
    ensures forall i | 0 <= i < |r| :: r[i].product != product && r[i] in images
    ensures forall i | 0 <= i < |images| && images[i].product != product :: images[i] in r
  {
    if images == [] then []
    else
      var n := |images| - 1;
      var kept := DropImagesOf(images[..n], product);
      assert forall i | 0 <= i < n :: images[..n][i] == images[i];
      if images[n].product == product then kept else kept + [images[n]]
  }

  /** After the delete the product has no images and every other product keeps its count and total. */
  lemma {:induction false} DropImagesSums(images: seq<ProductImage>, product: nat, q: nat)
    ensures ImageCount(DropImagesOf(images, product), q) == (if q == product then 0 else ImageCount(images, q))
    ensures ImagesTotal(DropImagesOf(images, product), q) == (if q == product then 0 else ImagesTotal(images, q))
    decreases |images|
  {
    if images != [] {
      var n := |images| - 1;
      DropImagesSums(images[..n], product, q);
      if images[n].product != product {
        ImageSumsAppend(DropImagesOf(images[..n], product), images[n], q);
      }
    }
  }

  /** The delete keeps the remaining image slots distinct. */
  lemma {:induction false} DropImagesSlots(images: seq<ProductImage>, product: nat)
    requires SlotsUnique(images)
    ensures SlotsUnique(DropImagesOf(images, product))
    decreases |images|
  {
    if images != [] {
      var n := |images| - 1;
      var init := images[..n];
      assert SlotsUnique(init);
      DropImagesSlots(init, product);
      var kept := DropImagesOf(init, product);
      var r := DropImagesOf(images, product);
      if images[n].product != product {
        assert r == kept + [images[n]];
        forall i, j | 0 <= i < j < |r| && r[i].product == r[j].product
          ensures r[i].order != r[j].order
        {
          if j == |kept| {
            var k :| 0 <= k < n && init[k] == kept[i];
            assert images[k] == r[i] && images[n] == r[j];
          } else {
            assert r[i] == kept[i] && r[j] == kept[j];
          }
        }
      }
    }
  }

  // ---- invariant preservation ----------------------------------------------

  lemma {:induction false} BusinessInsertKeepsInvariant(
    businesses: seq<Business>, products: seq<Product>, images: seq<ProductImage>, b: Business)
    requires CatalogInvariant(businesses, products, images)
    requires BusinessFullClean(b, businesses, None)
    ensures CatalogInvariant(businesses + [b], products, images)
  {
    var bs := businesses + [b];
    forall i | 0 <= i < |products| ensures HasBusiness(bs, products[i].business) {
      var j :| 0 <= j < |businesses| && businesses[j].id == products[i].business;
      assert bs[j] == businesses[j];
    }
  }

  /** A save that keeps a business's id, user and vector id keeps the invariant. */
  lemma {:induction false} BusinessSaveKeepsInvariant(
    businesses: seq<Business>, products: seq<Product>, images: seq<ProductImage>, i: nat, b: Business)
    requires CatalogInvariant(businesses, products, images)
    requires i < |businesses|
    requires b.id == businesses[i].id && b.user == businesses[i].user && b.chromaId == businesses[i].chromaId
    ensures CatalogInvariant(businesses[i := b], products, images)
  {
    var bs := businesses[i := b];
    forall k | 0 <= k < |products| ensures HasBusiness(bs, products[k].business) {
      var j :| 0 <= j < |businesses| && businesses[j].id == products[k].business;
      assert bs[j].id == businesses[j].id;
    }
  }

  lemma {:induction false} ProductInsertKeepsInvariant(
    businesses: seq<Business>, products: seq<Product>, images: seq<ProductImage>, p: Product)
    requires CatalogInvariant(businesses, products, images)
    requires ProductFullClean(p, businesses, products, None)
    ensures CatalogInvariant(businesses, products + [p], images)
  {
    var ps := products + [p];
    forall b ensures ProductCount(ps, b) <= MaxProductsPerBusiness {
      ProductCountAppend(products, p, b);
    }
    forall i | 0 <= i < |images| ensures HasProduct(ps, images[i].product) {
      var j :| 0 <= j < |products| && products[j].id == images[i].product;
      assert ps[j] == products[j];
    }
    forall i | 0 <= i < |ps| ensures HasBusiness(businesses, ps[i].business) {
      if i < |products| { assert ps[i] == products[i]; }
    }
  }

  /** A save that keeps a product's id, business and vector id keeps the invariant. */
  lemma {:induction false} ProductSaveKeepsInvariant(
    businesses: seq<Business>, products: seq<Product>, images: seq<ProductImage>, i: nat, p: Product)
    requires CatalogInvariant(businesses, products, images)
    requires i < |products|
    requires p.id == products[i].id && p.business == products[i].business && p.chromaId == products[i].chromaId
    ensures CatalogInvariant(businesses, products[i := p], images)
  {
    var ps := products[i := p];
    forall b ensures ProductCount(ps, b) <= MaxProductsPerBusiness {
      ProductCountReplace(products, i, p, b);
    }
    forall k | 0 <= k < |images| ensures HasProduct(ps, images[k].product) {
      var j :| 0 <= j < |products| && products[j].id == images[k].product;
      assert ps[j].id == products[j].id;
    }
  }

  lemma {:induction false} ImageInsertKeepsInvariant(
    businesses: seq<Business>, products: seq<Product>, images: seq<ProductImage>, img: ProductImage)
    requires CatalogInvariant(businesses, products, images)
    requires ImageCreateClean(img, products, images)
    ensures CatalogInvariant(businesses, products, images + [img])
  {
    var s := images + [img];
    forall q ensures ImageCount(s, q) <= MaxImagesPerProduct && ImagesTotal(s, q) <= MaxImagesTotalBytes {
      ImageSumsAppend(images, img, q);
    }
    forall i | 0 <= i < |s| ensures HasProduct(products, s[i].product) && 0 <= s[i].order <= MaxImageOrder {
      if i < |images| { assert s[i] == images[i]; }
    }
    forall i, j | 0 <= i < j < |s| && s[i].product == s[j].product ensures s[i].order != s[j].order {
      if j < |images| { assert s[i] == images[i] && s[j] == images[j]; }
      else { assert s[i] == images[i]; }
    }
  }

  /** A save of an existing image that keeps its id and product, and passes `full_clean`, keeps the invariant. */
  lemma {:induction false} ImageSaveKeepsInvariant(
    businesses: seq<Business>, products: seq<Product>, images: seq<ProductImage>, i: nat, img: ProductImage)
    requires CatalogInvariant(businesses, products, images)
    requires i < |images| && img.id == images[i].id && img.product == images[i].product
    requires forall j | 0 <= j < |images| && j != i :: images[j].id != images[i].id
    requires ImageSaveClean(img, products, images, i)
    ensures CatalogInvariant(businesses, products, images[i := img])
  {
    var s := images[i := img];
    forall q ensures ImageCount(s, q) <= MaxImagesPerProduct && ImagesTotal(s, q) <= MaxImagesTotalBytes {
      ImageSumsReplace(images, i, img, q);
      if q == img.product && img.data == [] {
        ImageWithinTotal(images, i);
      }
    }
    forall a, b | 0 <= a < b < |s| && s[a].product == s[b].product ensures s[a].order != s[b].order {
      if a == i {
        assert s[b] == images[b] && images[b].id != images[i].id;
      } else if b == i {
        assert s[a] == images[a] && images[a].id != images[i].id;
      } else {
        assert s[a] == images[a] && s[b] == images[b];
      }
    }
  }

  lemma {:induction false} DropImagesKeepsInvariant(
    businesses: seq<Business>, products: seq<Product>, images: seq<ProductImage>, product: nat)
    requires CatalogInvariant(businesses, products, images)
    ensures CatalogInvariant(businesses, products, DropImagesOf(images, product))
  {
    var r := DropImagesOf(images, product);
    forall i | 0 <= i < |r| ensures HasProduct(products, r[i].product) && 0 <= r[i].order <= MaxImageOrder {
      var k :| 0 <= k < |images| && images[k] == r[i];
    }
    forall q ensures ImageCount(r, q) <= MaxImagesPerProduct && ImagesTotal(r, q) <= MaxImagesTotalBytes {
      DropImagesSums(images, product, q);
    }
    DropImagesSlots(images, product);
  }

  // ---- tables --------------------------------------------------------------

  /** `full_clean` of a new row does not look at the key it will be given. */
  lemma BusinessKeyIrrelevant(b: Business, businesses: seq<Business>, id: nat)
    requires BusinessFullClean(b, businesses, None)
    ensures BusinessFullClean(b.(id := id), businesses, None)
  {
    assert BusinessClean(b.(id := id)) == BusinessClean(b);
  }

  lemma ProductKeyIrrelevant(p: Product, businesses: seq<Business>, products: seq<Product>, id: nat)
    requires ProductFullClean(p, businesses, products, None)
    ensures ProductFullClean(p.(id := id), businesses, products, None)
  {
    assert ProductClean(p.(id := id), true, ProductCount(products, p.business)) == ProductClean(p, true, ProductCount(products, p.business));
  }

  lemma ImageKeyIrrelevant(img: ProductImage, products: seq<Product>, images: seq<ProductImage>, id: nat)
    requires ImageCreateClean(img, products, images)
    ensures ImageCreateClean(img.(id := id), products, images)
  {
  }

  class BusinessTable {
    var rows: seq<Business>
    var nextId: nat

    constructor (initial: seq<Business>, firstFreeId: nat)
      ensures rows == initial && nextId == firstFreeId
    {
      rows := initial;
      nextId := firstFreeId;
    }

    /** `Business.objects.create(...)`: `full_clean`, then insert with the next primary key. */
    method Insert(b: Business) returns (saved: Option<Business>)
      modifies this
      ensures saved.Some? <==> BusinessFullClean(b, old(rows), None)
      ensures saved.Some? ==> BusinessFullClean(saved.value, old(rows), None)
      ensures saved.Some? ==> saved.value == b.(id := old(nextId)) && rows == old(rows) + [saved.value] && nextId == old(nextId) + 1
      ensures saved.None? ==> rows == old(rows) && nextId == old(nextId)
    {
      if !BusinessFullClean(b, rows, None) {
        return None;
      }
      var row := b.(id := nextId);
      BusinessKeyIrrelevant(b, rows, nextId);
      rows := rows + [row];
      nextId := nextId + 1;
      return Some(row);
    }

    /** `Business.save()` on the stored row `i`. */
    method Save(i: nat, b: Business) returns (ok: bool)
      requires i < |rows| && b.id == rows[i].id
      modifies this
      ensures ok <==> BusinessFullClean(b, old(rows), Some(b.id))
      ensures ok ==> rows == old(rows)[i := b]
      ensures !ok ==> rows == old(rows)
      ensures nextId == old(nextId)
    {
      ok := BusinessFullClean(b, rows, Some(b.id));
      if ok {
        rows := rows[i := b];
      }
    }
  }

  class ProductTable {
    var rows: seq<Product>
    var nextId: nat

    constructor (initial: seq<Product>, firstFreeId: nat)
      ensures rows == initial && nextId == firstFreeId
    {
      rows := initial;
      nextId := firstFreeId;
    }

    /** `Product.objects.create(...)`: `full_clean` with the creation quota, then insert. */
    method Insert(p: Product, businesses: seq<Business>) returns (saved: Option<Product>)
      modifies this
      ensures saved.Some? <==> ProductFullClean(p, businesses, old(rows), None)
      ensures saved.Some? ==> ProductFullClean(saved.value, businesses, old(rows), None)
      ensures saved.Some? ==> saved.value == p.(id := old(nextId)) && rows == old(rows) + [saved.value] && nextId == old(nextId) + 1
      ensures saved.None? ==> rows == old(rows) && nextId == old(nextId)
    {
      var existing := ProductCount(rows, p.business);
      if !ProductFieldsOk(p, businesses) || ProductClean(p, true, existing).Some? || !ProductUnique(p, rows, None) {
        return None;
      }
      var row := p.(id := nextId);
      ProductKeyIrrelevant(p, businesses, rows, nextId);
      rows := rows + [row];
      nextId := nextId + 1;
      return Some(row);
    }

    /** `Product.save()` on the stored row `i`: the quota is not checked again. */
    method Save(i: nat, p: Product, businesses: seq<Business>) returns (ok: bool)
      requires i < |rows| && p.id == rows[i].id
      modifies this
      ensures ok <==> ProductFullClean(p, businesses, old(rows), Some(p.id))
      ensures ok ==> rows == old(rows)[i := p]
      ensures !ok ==> rows == old(rows)
      ensures nextId == old(nextId)
    {
      ok := ProductFieldsOk(p, businesses) && ProductClean(p, false, ProductCount(rows, p.business)).None? &&
            ProductUnique(p, rows, Some(p.id));
      if ok {
        rows := rows[i := p];
      }
    }
  }

  class ImageTable {
    var rows: seq<ProductImage>
    var nextId: nat

    constructor (initial: seq<ProductImage>, firstFreeId: nat)
      ensures rows == initial && nextId == firstFreeId
    {
      rows := initial;
      nextId := firstFreeId;
    }

    /** `Product.get_total_images_size`: one pass over the product's images, skipping empty data. */
    method TotalImagesSize(product: nat) returns (total: nat)
      ensures total == ImagesTotal(rows, product)
    {
      total := 0;
      var i := 0;
      while i < |rows|
        invariant 0 <= i <= |rows|
        invariant total == ImagesTotal(rows[..i], product)
      {
        assert rows[..i + 1][..i] == rows[..i];
        if rows[i].product == product && rows[i].data != [] {
          total := total + |rows[i].data|;
        }
        i := i + 1;
      }
      assert rows[..|rows|] == rows;
    }

    /** `ProductImage.objects.create(...)`: `full_clean` with the creation quota, then insert. */
    method Insert(img: ProductImage, products: seq<Product>) returns (saved: Option<ProductImage>)
      modifies this
      ensures saved.Some? <==> ImageCreateClean(img, products, old(rows))
      ensures saved.Some? ==> ImageCreateClean(saved.value, products, old(rows))
      ensures saved.Some? ==> saved.value == img.(id := old(nextId)) && rows == old(rows) + [saved.value] && nextId == old(nextId) + 1
      ensures saved.None? ==> rows == old(rows) && nextId == old(nextId)
    {
      var existingTotal := TotalImagesSize(img.product);
      var existingCount := ImageCount(rows, img.product);
      if !ImageFieldsOk(img, products) || ImageClean(img, true, existingCount, existingTotal, 0).Some? ||
         !SlotFree(img, rows, None) {
        return None;
      }
      var row := img.(id := nextId);
      ImageKeyIrrelevant(img, products, rows, nextId);
      rows := rows + [row];
      nextId := nextId + 1;
      return Some(row);
    }

    /** `ProductImage.save()` on the stored row `i`: its old size is taken out of the total first. */
    method Save(i: nat, img: ProductImage, products: seq<Product>) returns (ok: bool)
      requires i < |rows| && img.id == rows[i].id
      modifies this
      ensures ok <==> ImageSaveClean(img, products, old(rows), i)
      ensures ok ==> rows == old(rows)[i := img]
      ensures !ok ==> rows == old(rows)
      ensures nextId == old(nextId)
    {
      var existingTotal := TotalImagesSize(img.product);
      var oldSize := if rows[i].data != [] then |rows[i].data| else 0;
      ok := ImageFieldsOk(img, products) &&
            ImageClean(img, false, ImageCount(rows, img.product), existingTotal, oldSize).None? &&
            SlotFree(img, rows, Some(rows[i].id));
      if ok {
        rows := rows[i := img];
      }
    }

    /** `instance.images.all().delete()`. */
    method DeleteImagesOf(product: nat)
      modifies this
      ensures rows == DropImagesOf(old(rows), product)
      ensures nextId == old(nextId)
    {
      rows := DropImagesOf(rows, product);
    }
  }

  /** The two vector collections the serializers write to. */
  datatype Collection = BusinessCollection | ProductCollection

  /** One `upsert` into a collection: the document id, its text and its owner's username. */
  datatype VectorWrite = VectorWrite(collection: Collection, id: string, document: string, username: string)

  /** The vector store, seen as the log of upserts it receives. */
  class VectorStore {
    var writes: seq<VectorWrite>

    constructor ()
      ensures writes == []
    {
      writes := [];
    }

    method Upsert(w: VectorWrite)
      modifies this
      ensures writes == old(writes) + [w]
    {
      writes := writes + [w];
    }
  }
}
