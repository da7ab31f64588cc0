/*
 * backend/accounts/serializers_product.py: the image-list validators of
 * `ProductSerializer` and `ProductCreateUpdateSerializer`, the creation
 * checks of `ProductSerializer.validate`, and `create`/`update`, which write
 * the product row, its vector document and one image row per upload.
 */
module ProductSerializers {
  import opened Common
  import opened Uploads
  import opened Catalog

  datatype ImagesError =
    | NoImages
    | TooManyImagesGiven(count: nat)
    | EmptyImage(index: nat)
    | InvalidImage(index: nat)   // "Image i: Invalid image data", raised for any failure inside the try
    | TotalTooLarge(total: nat)

  /** An upload that splits, decodes and declares an `image/` type. */
  predicate EntryAccepted(entry: string, decode: Decoder)
  {
    DecodeUpload(entry, decode).Ok? && IsImageType(DecodeUpload(entry, decode).value.contentType)
  }

  /** Decoded bytes an entry contributes to the running total. */
  function EntrySize(entry: string, decode: Decoder): nat
  {
    if entry != [] && DecodeUpload(entry, decode).Ok? then |DecodeUpload(entry, decode).value.data| else 0
  }

  function UploadTotal(entries: seq<string>, decode: Decoder): nat
  {
    if entries == [] then 0
    else UploadTotal(entries[..|entries| - 1], decode) + EntrySize(entries[|entries| - 1], decode)
  }

  predicate NonEmptyEntriesAccepted(entries: seq<string>, decode: Decoder)
  {
    forall i | 0 <= i < |entries| && entries[i] != [] :: EntryAccepted(entries[i], decode)
  }

  predicate AllEntriesAccepted(entries: seq<string>, decode: Decoder)
  {
    forall i | 0 <= i < |entries| :: entries[i] != [] && EntryAccepted(entries[i], decode)
  }

  /** The upload list `validate_images_upload` passes. */
  predicate UploadListAccepted(value: seq<string>, decode: Decoder)
  {
    value == [] ||
    (|value| <= MaxImagesPerProduct && NonEmptyEntriesAccepted(value, decode) && UploadTotal(value, decode) <= MaxImagesTotalBytes)
  }

  /** The image list `validate_images` passes. */
  predicate ImageListAccepted(value: seq<string>, decode: Decoder)
  {
    1 <= |value| <= MaxImagesPerProduct && AllEntriesAccepted(value, decode) && UploadTotal(value, decode) <= MaxImagesTotalBytes
  }

  /** A list `validate_images` accepts is accepted by `validate_images_upload` too. */
  lemma {:induction false} ImageListAcceptedIsUploadAccepted(value: seq<string>, decode: Decoder)
    requires ImageListAccepted(value, decode)
    ensures UploadListAccepted(value, decode) && value != []
  {
    forall i | 0 <= i < |value| && value[i] != [] ensures EntryAccepted(value[i], decode) {
    }
  }

  lemma {:induction false} AcceptedStep(value: seq<string>, idx: nat, decode: Decoder)
    requires idx < |value| && AllEntriesAccepted(value[..idx], decode)
    requires value[idx] != [] && EntryAccepted(value[idx], decode)
    ensures AllEntriesAccepted(value[..idx + 1], decode)
  {
    assert forall i | 0 <= i < idx :: value[..idx + 1][i] == value[..idx][i];
  }

  lemma {:induction false} NonEmptyStep(value: seq<string>, idx: nat, decode: Decoder)
    requires idx < |value| && NonEmptyEntriesAccepted(value[..idx], decode)
    requires value[idx] != [] ==> EntryAccepted(value[idx], decode)
    ensures NonEmptyEntriesAccepted(value[..idx + 1], decode)
  {
    assert forall i | 0 <= i < idx :: value[..idx + 1][i] == value[..idx][i];
  }

  /** One rejected non-empty entry makes the whole list fail. */
  lemma RejectedEntry(value: seq<string>, idx: nat, decode: Decoder)
    requires idx < |value| && value[idx] != [] && !EntryAccepted(value[idx], decode)
    ensures !NonEmptyEntriesAccepted(value, decode)
  {
  }

  lemma {:induction false} UploadTotalStep(entries: seq<string>, i: nat, decode: Decoder)
    requires i < |entries|
    ensures UploadTotal(entries[..i + 1], decode) == UploadTotal(entries[..i], decode) + EntrySize(entries[i], decode)
  {
    assert entries[..i + 1][..i] == entries[..i];
  }

  /**
   * `ProductSerializer.validate_images_upload`: an empty list passes as is;
   * more than four entries are refused; each non-empty entry must decode to
   * an image; the decoded total may not exceed 1 MiB.
   */
  method ValidateImagesUpload(value: seq<string>, decode: Decoder) returns (r: Result<seq<string>, ImagesError>)
    ensures r.Ok? <==> UploadListAccepted(value, decode)
    ensures r.Ok? ==> r.value == value
    ensures |value| > MaxImagesPerProduct ==> r == Err(TooManyImagesGiven(|value|))
    ensures r.Err? && r.error.TooManyImagesGiven? ==> |value| > MaxImagesPerProduct
    ensures r.Err? && r.error.InvalidImage? ==>
      && r.error.index < |value| && value[r.error.index] != [] && !EntryAccepted(value[r.error.index], decode)
      && NonEmptyEntriesAccepted(value[..r.error.index], decode)
    ensures r.Err? && r.error.TotalTooLarge? ==>
      r.error.total == UploadTotal(value, decode) > MaxImagesTotalBytes && NonEmptyEntriesAccepted(value, decode)
    ensures r.Err? ==> r.error.TooManyImagesGiven? || r.error.InvalidImage? || r.error.TotalTooLarge?
  {
    if value == [] {
      return Ok(value);
    }
    if |value| > 4 {
      return Err(TooManyImagesGiven(|value|));
    }
    var scanned := ScanUploads(value, decode);
    if scanned.Err? {
      return Err(InvalidImage(scanned.error));
    }
    if scanned.value > 1024 * 1024 {
      return Err(TotalTooLarge(scanned.value));
    }
    return Ok(value);
  }

  /**
   * The loop of `validate_images_upload`: skip empty entries, decode the
   * others and add their sizes, and stop at the first entry that does not
   * decode or is not an image. Yields the total, or the failing position.
   */
  method ScanUploads(value: seq<string>, decode: Decoder) returns (r: Result<nat, nat>)
    ensures r.Ok? <==> NonEmptyEntriesAccepted(value, decode)
    ensures r.Ok? ==> r.value == UploadTotal(value, decode)
    ensures r.Err? ==>
      && r.error < |value| && value[r.error] != [] && !EntryAccepted(value[r.error], decode)
      && NonEmptyEntriesAccepted(value[..r.error], decode)
  {
    var total := 0;
    var idx := 0;
    while idx < |value|
      invariant 0 <= idx <= |value|
      invariant total == UploadTotal(value[..idx], decode)
      invariant NonEmptyEntriesAccepted(value[..idx], decode)
    {
      UploadTotalStep(value, idx, decode);
      var entry := value[idx];
      if entry != [] {
        var decoded := DecodeUpload(entry, decode);
        if decoded.Err? {
          RejectedEntry(value, idx, decode);
          return Err(idx);
        }
        total := total + |decoded.value.data|;
        if !IsImageType(decoded.value.contentType) {
          RejectedEntry(value, idx, decode);
          return Err(idx);
        }
      }
      NonEmptyStep(value, idx, decode);
      idx := idx + 1;
    }
    assert value[..idx] == value;
    return Ok(total);
  }

  /**
   * `ProductCreateUpdateSerializer.validate_images`: as above, except that
   * the list must hold one to four entries and none of them may be empty.
   */
  method ValidateImages(value: seq<string>, decode: Decoder) returns (r: Result<seq<string>, ImagesError>)
    ensures r.Ok? <==> ImageListAccepted(value, decode)
    ensures r.Ok? ==> r.value == value
    ensures value == [] ==> r == Err(NoImages)
    ensures r.Err? && r.error.NoImages? ==> value == []
    ensures |value| > MaxImagesPerProduct ==> r == Err(TooManyImagesGiven(|value|))
    ensures r.Err? && r.error.TooManyImagesGiven? ==> |value| > MaxImagesPerProduct
    ensures r.Err? && r.error.EmptyImage? ==>
      r.error.index < |value| && value[r.error.index] == [] && AllEntriesAccepted(value[..r.error.index], decode)
    ensures r.Err? && r.error.InvalidImage? ==>
      && r.error.index < |value| && value[r.error.index] != [] && !EntryAccepted(value[r.error.index], decode)
      && AllEntriesAccepted(value[..r.error.index], decode)
    ensures r.Err? && r.error.TotalTooLarge? ==>
      r.error.total == UploadTotal(value, decode) > MaxImagesTotalBytes && AllEntriesAccepted(value, decode)
  {
    if value == [] {
      return Err(NoImages);
    }
    if |value| > 4 {
      return Err(TooManyImagesGiven(|value|));
    }
    var total := 0;
    var idx := 0;
    while idx < |value|
      invariant 0 <= idx <= |value|
      invariant total == UploadTotal(value[..idx], decode)
      invariant AllEntriesAccepted(value[..idx], decode)
    {
      UploadTotalStep(value, idx, decode);
      var entry := value[idx];
      if entry == [] {
        return Err(EmptyImage(idx));
      }
      var upload := DecodeUpload(entry, decode);
      if upload.Err? {
        return Err(InvalidImage(idx));
      }
      total := total + |upload.value.data|;
      if !IsImageType(upload.value.contentType) {
        return Err(InvalidImage(idx));
      }
      AcceptedStep(value, idx, decode);
      idx := idx + 1;
    }
    assert value[..idx] == value;
    if total > 1024 * 1024 {
      return Err(TotalTooLarge(total));
    }
    return Ok(value);
  }

  datatype ProductError = TooManyProductsForBusiness(existing: nat) | ImagesRequired

  /**
   * `ProductSerializer.validate`. On creation (`isCreate`): a resolvable
   * business (`businessCount` is its product count) with ten or more
   * products is refused, then a missing or empty upload list. Updates pass.
   */
  function ValidateProduct(isCreate: bool, businessCount: Option<nat>, imagesUpload: Option<seq<string>>): (r: Result<(), ProductError>)
    ensures !isCreate ==> r.Ok?
    ensures isCreate ==> (r.Ok? <==>
      (businessCount.None? || businessCount.value < MaxProductsPerBusiness) && imagesUpload.Some? && imagesUpload.value != [])
    ensures isCreate && businessCount.Some? && businessCount.value >= MaxProductsPerBusiness ==>
      r == Err(TooManyProductsForBusiness(businessCount.value))
  {
    if isCreate && businessCount.Some? && businessCount.value >= 10 then Err(TooManyProductsForBusiness(businessCount.value))
    else if isCreate && (imagesUpload.None? || imagesUpload.value == []) then Err(ImagesRequired)
    else Ok(())
  }

  // ---- storing images --------------------------------------------------------

  /** The row `create`/`update` builds for upload number `idx`: slot `idx`, filename `product_{id}_image_{idx+1}`. */
  function ImageFor(productId: nat, idx: nat, upload: DecodedUpload): (img: ProductImage)
    ensures img.id == 0 && img.order == idx && img.product == productId && img.data == upload.data
    ensures img.contentType == upload.contentType
    ensures img.filename == "product_" + Decimal(productId) + "_image_" + Decimal(idx + 1)
  {
    ProductImage(0, productId, upload.data, "product_" + Decimal(productId) + "_image_" + Decimal(idx + 1), upload.contentType, idx)
  }

  /** The row planned for upload `idx`: one row when it is non-empty and decodes, none otherwise. */
  function PlannedEntry(productId: nat, idx: nat, entry: string, decode: Decoder): (planned: seq<ProductImage>)
    ensures |planned| <= 1
    ensures planned != [] <==> entry != [] && DecodeUpload(entry, decode).Ok?
    ensures planned != [] ==> planned[0] == ImageFor(productId, idx, DecodeUpload(entry, decode).value)
  {
    if entry != [] && DecodeUpload(entry, decode).Ok? then [ImageFor(productId, idx, DecodeUpload(entry, decode).value)] else []
  }

  /** The image rows the upload loop creates for `entries`, empty entries skipped, before keys are assigned. */
  function PlannedImages(productId: nat, entries: seq<string>, decode: Decoder): (planned: seq<ProductImage>)
    ensures |planned| <= |entries|
    ensures forall k | 0 <= k < |planned| :: planned[k].id == 0 && planned[k].product == productId && 0 <= planned[k].order < |entries|
  {
    if entries == [] then []
    else
      var n := |entries| - 1;
      PlannedImages(productId, entries[..n], decode) + PlannedEntry(productId, n, entries[n], decode)
  }

  /** The planned rows occupy distinct slots, in upload order. */
  lemma {:induction false} PlannedOrdersIncrease(productId: nat, entries: seq<string>, decode: Decoder)
    ensures forall a, b | 0 <= a < b < |PlannedImages(productId, entries, decode)| ::
      PlannedImages(productId, entries, decode)[a].order < PlannedImages(productId, entries, decode)[b].order
    decreases |entries|
  {
    if entries != [] {
      var n := |entries| - 1;
      PlannedOrdersIncrease(productId, entries[..n], decode);
      var before := PlannedImages(productId, entries[..n], decode);
      var planned := PlannedImages(productId, entries, decode);
      forall a, b | 0 <= a < b < |planned| ensures planned[a].order < planned[b].order {
        assert planned[a] == before[a];
        if b < |before| {
          assert planned[b] == before[b];
        } else {
          assert before[a].order < n;
        }
      }
    }
  }

  /** The planned rows hold exactly the bytes the validators summed. */
  lemma {:induction false} PlannedTotal(productId: nat, entries: seq<string>, decode: Decoder)
    ensures ImagesTotal(PlannedImages(productId, entries, decode), productId) == UploadTotal(entries, decode)
    decreases |entries|
  {
    if entries != [] {
      var n := |entries| - 1;
      PlannedTotal(productId, entries[..n], decode);
      var before := PlannedImages(productId, entries[..n], decode);
      var entry := entries[n];
      if entry != [] && DecodeUpload(entry, decode).Ok? {
        ImageSumsAppend(before, ImageFor(productId, n, DecodeUpload(entry, decode).value), productId);
      } else {
        assert PlannedImages(productId, entries, decode) == before + [] == before;
      }
    }
  }

  /** When every non-empty upload decodes, one row is planned per non-empty upload. */
  lemma {:induction false} PlannedCount(productId: nat, entries: seq<string>, decode: Decoder)
    requires NonEmptyEntriesAccepted(entries, decode)
    ensures |PlannedImages(productId, entries, decode)| == |entries| - EmptyEntries(entries)
    decreases |entries|
  {
    if entries != [] {
      var n := |entries| - 1;
      var init, last := entries[..n], entries[n];
      assert forall i | 0 <= i < n :: init[i] == entries[i];
      PlannedCount(productId, init, decode);
      assert PlannedImages(productId, entries, decode) == PlannedImages(productId, init, decode) + PlannedEntry(productId, n, last, decode);
      assert EmptyEntries(entries) == EmptyEntries(init) + (if last == [] then 1 else 0);
      assert last != [] ==> EntryAccepted(last, decode);
      assert |PlannedEntry(productId, n, last, decode)| == if last == [] then 0 else 1;
    }
  }

  /** Number of empty entries: the loop skips them. */
  function EmptyEntries(entries: seq<string>): nat
  {
    if entries == [] then 0 else EmptyEntries(entries[..|entries| - 1]) + (if entries[|entries| - 1] == [] then 1 else 0)
  }

  /** The rows with their keys blanked, to compare against what the loop planned. */
  function Unstamped(rows: seq<ProductImage>): (r: seq<ProductImage>)
    ensures |r| == |rows|
    ensures forall k | 0 <= k < |rows| :: r[k] == rows[k].(id := 0)
  {
    seq(|rows|, k requires 0 <= k < |rows| => rows[k].(id := 0))
  }

  datatype StoreError =
    | ProductRejected        // the product row failed `full_clean`
    | UploadCrashed(index: nat)  // split or base64 decoding raised outside any try
    | ImageRejected(index: nat)  // the image row failed `full_clean`
    | UnexpectedKeyword      // TypeError from the vector call

  /**
   * Upload `n` can be stored after the rows stored before it: an empty entry
   * is skipped; a non-empty one must decode, and its row must pass
   * `full_clean` against the rows already there plus those the loop created
   * for the earlier uploads.
   */
  predicate EntryStorable(productId: nat, n: nat, entries: seq<string>, decode: Decoder,
                          products: seq<Product>, rows: seq<ProductImage>)
    requires n < |entries|
  {
    entries[n] != [] ==>
      && DecodeUpload(entries[n], decode).Ok?
      && ImageCreateClean(ImageFor(productId, n, DecodeUpload(entries[n], decode).value), products,
                          rows + PlannedImages(productId, entries[..n], decode))
  }

  /** The image loop runs to the end: every upload can be stored in turn. */
  predicate StoreAccepts(productId: nat, entries: seq<string>, decode: Decoder,
                         products: seq<Product>, rows: seq<ProductImage>)
  {
    forall n | 0 <= n < |entries| :: EntryStorable(productId, n, entries, decode, products, rows)
  }

  /**
   * The image loop shared by `create` and `update`: one `ProductImage` per
   * non-empty upload, stopping at the first exception. Rows created before a
   * failure stay.
   */
  method StoreImages(images: ImageTable, ghost businesses: seq<Business>, products: seq<Product>,
                     productId: nat, entries: seq<string>, decode: Decoder) returns (r: Result<(), StoreError>)
    requires CatalogInvariant(businesses, products, images.rows)
    modifies images
    ensures CatalogInvariant(businesses, products, images.rows)
    ensures |old(images.rows)| <= |images.rows| && images.rows[..|old(images.rows)|] == old(images.rows)
    ensures r.Ok? <==> StoreAccepts(productId, entries, decode, products, old(images.rows))
    ensures r.Ok? ==> Unstamped(images.rows[|old(images.rows)|..]) == PlannedImages(productId, entries, decode)
    ensures r.Err? ==> r.error.UploadCrashed? || r.error.ImageRejected?
    ensures r.Err? ==>
      var m := r.error.index;
      && m < |entries|
      && (forall n | 0 <= n < m :: EntryStorable(productId, n, entries, decode, products, old(images.rows)))
      && !EntryStorable(productId, m, entries, decode, products, old(images.rows))
      && (r.error.UploadCrashed? <==> DecodeUpload(entries[m], decode).Err?)
      && Unstamped(images.rows[|old(images.rows)|..]) == PlannedImages(productId, entries[..m], decode)
  {
    ghost var start := |images.rows|;
    ghost var before := images.rows;
    var idx := 0;
    while idx < |entries|
      invariant 0 <= idx <= |entries|
      invariant start <= |images.rows| && images.rows[..start] == before
      invariant Unstamped(images.rows[start..]) == PlannedImages(productId, entries[..idx], decode)
      invariant forall n | 0 <= n < idx :: EntryStorable(productId, n, entries, decode, products, before)
      invariant CatalogInvariant(businesses, products, images.rows)
    {
      ghost var rowsBefore := images.rows;
      StorableAgainstStored(productId, idx, entries, decode, products, before, rowsBefore);
      var stored := StoreEntry(images, businesses, products, productId, idx, entries[idx], decode);
      if stored.Err? {
        return stored;
      }
      StorableStep(productId, idx, entries, decode, products, before);
      PlannedStep(productId, entries, idx, decode);
      TailGrows(rowsBefore, images.rows, start);
      idx := idx + 1;
    }
    assert entries[..idx] == entries;
    return Ok(());
  }

  /**
   * One pass of the image loop: a non-empty upload is decoded (a failure
   * raises) and its row inserted after `full_clean`; an empty one is skipped.
   */
  method StoreEntry(images: ImageTable, ghost businesses: seq<Business>, products: seq<Product>,
                    productId: nat, idx: nat, entry: string, decode: Decoder) returns (r: Result<(), StoreError>)
    requires CatalogInvariant(businesses, products, images.rows)
    modifies images
    ensures CatalogInvariant(businesses, products, images.rows)
    ensures r == Err(UploadCrashed(idx)) <==> entry != [] && DecodeUpload(entry, decode).Err?
    ensures r == Err(ImageRejected(idx)) <==>
      && entry != [] && DecodeUpload(entry, decode).Ok?
      && !ImageCreateClean(ImageFor(productId, idx, DecodeUpload(entry, decode).value), products, old(images.rows))
    ensures r.Err? ==> images.rows == old(images.rows) && (r.error == UploadCrashed(idx) || r.error == ImageRejected(idx))
    ensures r.Ok? ==>
      && |old(images.rows)| <= |images.rows| && images.rows[..|old(images.rows)|] == old(images.rows)
      && Unstamped(images.rows[|old(images.rows)|..]) == PlannedEntry(productId, idx, entry, decode)
  {
    if entry == [] {
      assert images.rows[|images.rows|..] == [];
      return Ok(());
    }
    var upload := DecodeUpload(entry, decode);
    if upload.Err? {
      return Err(UploadCrashed(idx));
    }
    var img := ImageFor(productId, idx, upload.value);
    ghost var rowsBefore := images.rows;
    var saved := images.Insert(img, products);
    if saved.None? {
      return Err(ImageRejected(idx));
    }
    ImageInsertKeepsInvariant(businesses, products, rowsBefore, saved.value);
    assert images.rows[|rowsBefore|..] == [saved.value];
    assert images.rows[..|rowsBefore|] == rowsBefore;
    return Ok(());
  }

  lemma {:induction false} StorableStep(productId: nat, m: nat, entries: seq<string>, decode: Decoder,
                                        products: seq<Product>, rows: seq<ProductImage>)
    requires m < |entries|
    requires forall n | 0 <= n < m :: EntryStorable(productId, n, entries, decode, products, rows)
    requires EntryStorable(productId, m, entries, decode, products, rows)
    ensures forall n | 0 <= n < m + 1 :: EntryStorable(productId, n, entries, decode, products, rows)
  {
  }

  /**
   * Whether upload `idx` can be stored depends on the rows actually stored so
   * far exactly as on the old rows followed by the plan: keys do not matter.
   */
  lemma {:induction false} StorableAgainstStored(productId: nat, idx: nat, entries: seq<string>, decode: Decoder,
                                                 products: seq<Product>, before: seq<ProductImage>, rows: seq<ProductImage>)
    requires idx < |entries|
    requires |before| <= |rows| && rows[..|before|] == before
    requires Unstamped(rows[|before|..]) == PlannedImages(productId, entries[..idx], decode)
    ensures EntryStorable(productId, idx, entries, decode, products, before) <==>
      (entries[idx] != [] ==>
        && DecodeUpload(entries[idx], decode).Ok?
        && ImageCreateClean(ImageFor(productId, idx, DecodeUpload(entries[idx], decode).value), products, rows))
  {
    var plan := PlannedImages(productId, entries[..idx], decode);
    RowsFollowPlan(rows, before, plan);
    if entries[idx] != [] && DecodeUpload(entries[idx], decode).Ok? {
      CreateCleanIgnoresKeys(ImageFor(productId, idx, DecodeUpload(entries[idx], decode).value), products,
                             rows, before + plan);
    }
  }

  /** Stored rows whose keyless tail is the plan match, keys aside, the old rows followed by the plan. */
  lemma {:induction false} RowsFollowPlan(rows: seq<ProductImage>, before: seq<ProductImage>, plan: seq<ProductImage>)
    requires |before| <= |rows| && rows[..|before|] == before
    requires Unstamped(rows[|before|..]) == plan
    requires forall k | 0 <= k < |plan| :: plan[k].id == 0
    ensures Unstamped(rows) == Unstamped(before + plan)
  {
    var n := |before|;
    forall k | 0 <= k < |rows| ensures Unstamped(rows)[k] == Unstamped(before + plan)[k] {
      if k >= n {
        assert rows[k] == rows[n..][k - n];
        assert (before + plan)[k] == plan[k - n];
      } else {
        assert rows[k] == rows[..n][k];
      }
    }
  }

  /** Counting and summing a product's images does not look at the keys. */
  lemma {:induction false} SumsIgnoreKeys(a: seq<ProductImage>, b: seq<ProductImage>, p: nat)
    requires Unstamped(a) == Unstamped(b)
    ensures ImageCount(a, p) == ImageCount(b, p) && ImagesTotal(a, p) == ImagesTotal(b, p)
    decreases |a|
  {
    if a != [] {
      var n := |a| - 1;
      assert Unstamped(a)[n] == Unstamped(b)[n];
      assert a[n].product == b[n].product && a[n].data == b[n].data;
      forall k | 0 <= k < n ensures Unstamped(a[..n])[k] == Unstamped(b[..n])[k] {
        assert Unstamped(a)[k] == Unstamped(b)[k];
      }
      SumsIgnoreKeys(a[..n], b[..n], p);
    }
  }

  /** `full_clean` of a new image depends on the stored rows only through their keyless contents. */
  lemma {:induction false} CreateCleanIgnoresKeys(img: ProductImage, products: seq<Product>, a: seq<ProductImage>, b: seq<ProductImage>)
    requires Unstamped(a) == Unstamped(b)
    ensures ImageCreateClean(img, products, a) == ImageCreateClean(img, products, b)
  {
    SumsIgnoreKeys(a, b, img.product);
    forall j | 0 <= j < |a| ensures a[j].product == b[j].product && a[j].order == b[j].order {
      assert Unstamped(a)[j] == Unstamped(b)[j];
    }
    assert SlotFree(img, a, None) == SlotFree(img, b, None);
  }

  /** A product without images counts none and sums to zero. */
  lemma {:induction false} NoImagesOf(rows: seq<ProductImage>, p: nat)
    requires forall j | 0 <= j < |rows| :: rows[j].product != p
    ensures ImageCount(rows, p) == 0 && ImagesTotal(rows, p) == 0
    decreases |rows|
  {
    if rows != [] {
      NoImagesOf(rows[..|rows| - 1], p);
    }
  }

  lemma {:induction false} SumsConcat(a: seq<ProductImage>, b: seq<ProductImage>, p: nat)
    ensures ImageCount(a + b, p) == ImageCount(a, p) + ImageCount(b, p)
    ensures ImagesTotal(a + b, p) == ImagesTotal(a, p) + ImagesTotal(b, p)
    decreases |b|
  {
    if b == [] {
      assert a + b == a;
    } else {
      var n := |b| - 1;
      SumsConcat(a, b[..n], p);
      assert a + b == (a + b[..n]) + [b[n]];
      assert b == b[..n] + [b[n]];
      ImageSumsAppend(a + b[..n], b[n], p);
      ImageSumsAppend(b[..n], b[n], p);
    }
  }

  /** A prefix of the uploads never adds up to more than the whole list. */
  lemma {:induction false} UploadTotalPrefix(entries: seq<string>, m: nat, decode: Decoder)
    requires m <= |entries|
    ensures UploadTotal(entries[..m], decode) <= UploadTotal(entries, decode)
    decreases |entries|
  {
    if m < |entries| {
      var n := |entries| - 1;
      assert entries[..n][..m] == entries[..m];
      UploadTotalPrefix(entries[..n], m, decode);
    } else {
      assert entries[..m] == entries;
    }
  }

  /**
   * A list `validate_images_upload` accepts can be stored for a product
   * that has no images yet (a new product, or one whose images were just
   * deleted), as long as the filenames and content types fit their columns.
   */
  lemma {:induction false} AcceptedUploadsStore(productId: nat, entries: seq<string>, decode: Decoder,
                                                products: seq<Product>, rows: seq<ProductImage>)
    requires UploadListAccepted(entries, decode)
    requires HasProduct(products, productId)
    requires forall j | 0 <= j < |rows| :: rows[j].product != productId
    requires 16 + |Decimal(productId)| <= FilenameMaxLength
    requires forall n | 0 <= n < |entries| && entries[n] != [] && DecodeUpload(entries[n], decode).Ok? ::
      |DecodeUpload(entries[n], decode).value.contentType| <= ContentTypeMaxLength
    ensures StoreAccepts(productId, entries, decode, products, rows)
  {
    forall n | 0 <= n < |entries| ensures EntryStorable(productId, n, entries, decode, products, rows) {
      if entries[n] != [] {
        AcceptedEntryStorable(productId, n, entries, decode, products, rows);
      }
    }
  }

  lemma {:induction false} AcceptedEntryStorable(productId: nat, n: nat, entries: seq<string>, decode: Decoder,
                                                 products: seq<Product>, rows: seq<ProductImage>)
    requires UploadListAccepted(entries, decode)
    requires HasProduct(products, productId)
    requires forall j | 0 <= j < |rows| :: rows[j].product != productId
    requires 16 + |Decimal(productId)| <= FilenameMaxLength
    requires n < |entries| && entries[n] != []
    requires DecodeUpload(entries[n], decode).Ok? ==> |DecodeUpload(entries[n], decode).value.contentType| <= ContentTypeMaxLength
    ensures EntryStorable(productId, n, entries, decode, products, rows)
  {
    assert EntryAccepted(entries[n], decode);
    var img := ImageFor(productId, n, DecodeUpload(entries[n], decode).value);
    var stored := rows + PlannedImages(productId, entries[..n], decode);
    AcceptedEntryWithinQuota(productId, n, entries, decode, rows);
    PlannedSlotsFree(productId, n, entries, decode, rows);
    assert |Decimal(n + 1)| == 1;
    assert StartsWith(img.contentType, ImagePrefix);
    assert ImageFieldsOk(img, products);
  }

  /** Upload `n` of an accepted list fits the count and size quota after the rows stored before it. */
  lemma {:induction false} AcceptedEntryWithinQuota(productId: nat, n: nat, entries: seq<string>, decode: Decoder,
                                                    rows: seq<ProductImage>)
    requires UploadListAccepted(entries, decode)
    requires forall j | 0 <= j < |rows| :: rows[j].product != productId
    requires n < |entries| && entries[n] != [] && DecodeUpload(entries[n], decode).Ok?
    ensures var stored := rows + PlannedImages(productId, entries[..n], decode);
      && ImageCount(stored, productId) < MaxImagesPerProduct
      && ImagesTotal(stored, productId) + |DecodeUpload(entries[n], decode).value.data| <= MaxImagesTotalBytes
  {
    var planned := PlannedImages(productId, entries[..n], decode);
    NoImagesOf(rows, productId);
    SumsConcat(rows, planned, productId);
    PlannedTotal(productId, entries[..n], decode);
    UploadTotalStep(entries, n, decode);
    UploadTotalPrefix(entries, n + 1, decode);
  }

  /** The slot of upload `n` is taken neither by an old row of another product nor by an earlier upload. */
  lemma {:induction false} PlannedSlotsFree(productId: nat, n: nat, entries: seq<string>, decode: Decoder,
                                            rows: seq<ProductImage>)
    requires forall j | 0 <= j < |rows| :: rows[j].product != productId
    requires n < |entries| && entries[n] != [] && DecodeUpload(entries[n], decode).Ok?
    ensures SlotFree(ImageFor(productId, n, DecodeUpload(entries[n], decode).value),
                     rows + PlannedImages(productId, entries[..n], decode), None)
  {
    var planned := PlannedImages(productId, entries[..n], decode);
    var stored := rows + planned;
    forall j | 0 <= j < |stored| ensures stored[j].product != productId || stored[j].order != n {
      if j >= |rows| {
        assert stored[j] == planned[j - |rows|];
      }
    }
  }

  lemma {:induction false} PlannedStep(productId: nat, entries: seq<string>, idx: nat, decode: Decoder)
    requires idx < |entries|
    ensures PlannedImages(productId, entries[..idx + 1], decode) ==
      PlannedImages(productId, entries[..idx], decode) + PlannedEntry(productId, idx, entries[idx], decode)
  {
    assert entries[..idx + 1][..idx] == entries[..idx];
  }

  /** Rows appended after `before` extend the unkeyed tail that starts at `start`. */
  lemma {:induction false} TailGrows(before: seq<ProductImage>, after: seq<ProductImage>, start: nat)
    requires start <= |before| <= |after| && after[..|before|] == before
    ensures after[..start] == before[..start]
    ensures Unstamped(after[start..]) == Unstamped(before[start..]) + Unstamped(after[|before|..])
  {
    assert after[start..] == before[start..] + after[|before|..];
  }

  // ---- the vector call ------------------------------------------------------

  /** The keyword arguments of one `chroma_service.add_product(...)` call. */
  datatype AddProductCall = AddProductCall(
    productId: string, description: string, businessId: nat, username: string, productDbId: Option<nat>)

  /** `add_product(product_id, product_description, business_id, username)` has no `product_db_id` parameter. */
  predicate MatchesAddProductSignature(call: AddProductCall)
  {
    call.productDbId.None?
  }

  /** A call passing `product_db_id` raises TypeError before anything is written; a well-formed one upserts. */
  method CallAddProduct(vectors: VectorStore, call: AddProductCall) returns (r: Result<(), StoreError>)
    modifies vectors
    ensures r.Ok? <==> MatchesAddProductSignature(call)
    ensures r.Ok? ==> vectors.writes == old(vectors.writes) + [VectorWrite(ProductCollection, call.productId, call.description, call.username)]
    ensures r.Err? ==> r.error == UnexpectedKeyword && vectors.writes == old(vectors.writes)
  {
    if call.productDbId.Some? {
      return Err(UnexpectedKeyword);
    }
    vectors.Upsert(VectorWrite(ProductCollection, call.productId, call.description, call.username));
    return Ok(());
  }

  /** `f"product_{business.id}_{uuid.uuid4().hex[:8]}"`, with the random part given. */
  function ProductChromaId(businessId: nat, suffix: string): (id: string)
    ensures StartsWith(id, "product_") && |id| == 9 + |Decimal(businessId)| + |suffix|
  {
    "product_" + Decimal(businessId) + "_" + suffix
  }

  /** The row `create` hands to `Product.objects.create`, before its key is assigned. */
  function NewProduct(business: Business, description: string, suffix: string): (p: Product)
    ensures p.business == business.id && p.description == description
    ensures p.chromaId == ProductChromaId(business.id, suffix)
  {
    Product(0, business.id, description, ProductChromaId(business.id, suffix))
  }

  /** `create` runs to the end: the new product passes `full_clean` and then every upload can be stored for it. */
  predicate CreateSucceeds(business: Business, description: string, entries: seq<string>, suffix: string, decode: Decoder,
                           businesses: seq<Business>, products: seq<Product>, nextId: nat, images: seq<ProductImage>)
  {
    && ProductFullClean(NewProduct(business, description, suffix), businesses, products, None)
    && StoreAccepts(nextId, entries, decode, products + [NewProduct(business, description, suffix).(id := nextId)], images)
  }

  /**
   * A new product whose key is not yet in use has no images, so an image
   * list `validate_images_upload` accepts is stored in full once the
   * product passes `full_clean`.
   */
  lemma {:induction false} FreshProductStoresAcceptedList(business: Business, description: string, entries: seq<string>,
                                                          suffix: string, decode: Decoder, businesses: seq<Business>,
                                                          products: seq<Product>, nextId: nat, images: seq<ProductImage>)
    requires CatalogInvariant(businesses, products, images)
    requires !HasProduct(products, nextId)
    requires ProductFullClean(NewProduct(business, description, suffix), businesses, products, None)
    requires UploadListAccepted(entries, decode)
    requires 16 + |Decimal(nextId)| <= FilenameMaxLength
    requires forall n | 0 <= n < |entries| && entries[n] != [] && DecodeUpload(entries[n], decode).Ok? ::
      |DecodeUpload(entries[n], decode).value.contentType| <= ContentTypeMaxLength
    ensures CreateSucceeds(business, description, entries, suffix, decode, businesses, products, nextId, images)
  {
    var stored := products + [NewProduct(business, description, suffix).(id := nextId)];
    assert stored[|products|].id == nextId;
    forall j | 0 <= j < |images| ensures images[j].product != nextId {
      assert HasProduct(products, images[j].product);
    }
    AcceptedUploadsStore(nextId, entries, decode, stored, images);
  }

  /**
   * `ProductSerializer.create` with the vector call made as `add_product`
   * accepts it: insert the product, upsert its description, then store the
   * images. A rejected product changes nothing; a failing image leaves the
   * product, its vector document and the images stored before it.
   */
  method Create(products: ProductTable, images: ImageTable, vectors: VectorStore, businesses: seq<Business>,
                business: Business, username: string, description: string, entries: seq<string>,
                suffix: string, decode: Decoder) returns (r: Result<Product, StoreError>)
    requires CatalogInvariant(businesses, products.rows, images.rows)
    modifies products, images, vectors
    ensures CatalogInvariant(businesses, products.rows, images.rows)
    ensures r == Err(ProductRejected) <==>
      !ProductFullClean(NewProduct(business, description, suffix), businesses, old(products.rows), None)
    ensures r == Err(ProductRejected) ==>
      products.rows == old(products.rows) && images.rows == old(images.rows) && vectors.writes == old(vectors.writes)
    ensures r != Err(ProductRejected) ==>
      && products.rows == old(products.rows) + [NewProduct(business, description, suffix).(id := old(products.nextId))]
      && vectors.writes == old(vectors.writes) +
           [VectorWrite(ProductCollection, ProductChromaId(business.id, suffix), description, username)]
      && |old(images.rows)| <= |images.rows| && images.rows[..|old(images.rows)|] == old(images.rows)
    ensures r.Err? ==> r.error.ProductRejected? || r.error.UploadCrashed? || r.error.ImageRejected?
    ensures r.Ok? <==>
      CreateSucceeds(business, description, entries, suffix, decode, businesses, old(products.rows), old(products.nextId), old(images.rows))
    ensures r.Ok? ==> r.value == NewProduct(business, description, suffix).(id := old(products.nextId))
    ensures r.Ok? ==> Unstamped(images.rows[|old(images.rows)|..]) == PlannedImages(r.value.id, entries, decode)
  {
    var saved := products.Insert(NewProduct(business, description, suffix), businesses);
    if saved.None? {
      return Err(ProductRejected);
    }
    var product := saved.value;
    ProductInsertKeepsInvariant(businesses, old(products.rows), images.rows, product);
    var call := CallAddProduct(vectors, AddProductCall(product.chromaId, product.description, business.id, username, None));
    var stored := StoreImages(images, businesses, products.rows, product.id, entries, decode);
    if stored.Err? {
      return Err(stored.error);
    }
    return Ok(product);
  }

  /**
   * `ProductSerializer.create` as the source writes it: the vector call
   * passes `product_db_id`, so once the product row is stored the call
   * raises TypeError; no vector document and no image is written.
   */
  method CreateAsWritten(products: ProductTable, images: ImageTable, vectors: VectorStore, businesses: seq<Business>,
                         business: Business, username: string, description: string, entries: seq<string>,
                         suffix: string, decode: Decoder) returns (r: Result<Product, StoreError>)
    requires CatalogInvariant(businesses, products.rows, images.rows)
    modifies products, images, vectors
    ensures CatalogInvariant(businesses, products.rows, images.rows)
    ensures r.Err?
    ensures r == Err(ProductRejected) <==>
      !ProductFullClean(NewProduct(business, description, suffix), businesses, old(products.rows), None)
    ensures r != Err(ProductRejected) ==>
      && r == Err(UnexpectedKeyword)
      && products.rows == old(products.rows) + [NewProduct(business, description, suffix).(id := old(products.nextId))]
    ensures images.rows == old(images.rows) && vectors.writes == old(vectors.writes)
  {
    var saved := products.Insert(NewProduct(business, description, suffix), businesses);
    if saved.None? {
      return Err(ProductRejected);
    }
    var product := saved.value;
    ProductInsertKeepsInvariant(businesses, old(products.rows), images.rows, product);
    var call := CallAddProduct(vectors, AddProductCall(product.chromaId, product.description, business.id, username, Some(product.id)));
    // the TypeError propagates: the image loop is never reached
    return Err(call.error);
  }

  /** The stored product `update` would write: the new description when one is given. */
  function Revised(p: Product, description: Option<string>): (q: Product)
    ensures q.id == p.id && q.business == p.business && q.chromaId == p.chromaId
    ensures description.None? ==> q == p
    ensures description.Some? ==> q.description == description.value
  {
    if description.Some? then p.(description := description.value) else p
  }

  /**
   * `update` on stored product `i` runs to the end: a given description
   * passes `full_clean`, and a given image list can be stored once the
   * product's old images are deleted.
   */
  predicate UpdateSucceeds(i: nat, description: Option<string>, entries: Option<seq<string>>, decode: Decoder,
                           businesses: seq<Business>, products: seq<Product>, images: seq<ProductImage>)
    requires i < |products|
  {
    && (description.Some? ==>
          ProductFullClean(Revised(products[i], description), businesses, products, Some(products[i].id)))
    && (entries.Some? ==>
          StoreAccepts(products[i].id, entries.value, decode, products[i := Revised(products[i], description)],
                       DropImagesOf(images, products[i].id)))
  }

  /** Replacing a stored product's images with a list `validate_images_upload` accepts always succeeds. */
  lemma {:induction false} ReplacementStoresAcceptedList(i: nat, description: Option<string>, entries: seq<string>, decode: Decoder,
                                                         businesses: seq<Business>, products: seq<Product>, images: seq<ProductImage>)
    requires i < |products|
    requires description.Some? ==>
      ProductFullClean(Revised(products[i], description), businesses, products, Some(products[i].id))
    requires UploadListAccepted(entries, decode)
    requires 16 + |Decimal(products[i].id)| <= FilenameMaxLength
    requires forall n | 0 <= n < |entries| && entries[n] != [] && DecodeUpload(entries[n], decode).Ok? ::
      |DecodeUpload(entries[n], decode).value.contentType| <= ContentTypeMaxLength
    ensures UpdateSucceeds(i, description, Some(entries), decode, businesses, products, images)
  {
    var revised := products[i := Revised(products[i], description)];
    assert revised[i].id == products[i].id;
    AcceptedUploadsStore(products[i].id, entries, decode, revised, DropImagesOf(images, products[i].id));
  }

  /**
   * `ProductSerializer.update` on stored product `i`, with the vector call
   * as `add_product` accepts it. A given description is saved, then
   * upserted; a given image list replaces all the product's images, an
   * absent one leaves them untouched.
   */
  method Update(products: ProductTable, images: ImageTable, vectors: VectorStore, businesses: seq<Business>,
                i: nat, username: string, description: Option<string>, entries: Option<seq<string>>,
                decode: Decoder) returns (r: Result<Product, StoreError>)
    requires i < |products.rows|
    requires CatalogInvariant(businesses, products.rows, images.rows)
    modifies products, images, vectors
    ensures CatalogInvariant(businesses, products.rows, images.rows)
    ensures r == Err(ProductRejected) <==> (description.Some? &&
      !ProductFullClean(Revised(old(products.rows[i]), description), businesses, old(products.rows), Some(old(products.rows[i]).id)))
    ensures r == Err(ProductRejected) ==>
      products.rows == old(products.rows) && images.rows == old(images.rows) && vectors.writes == old(vectors.writes)
    ensures r != Err(ProductRejected) ==>
      && products.rows == old(products.rows)[i := Revised(old(products.rows[i]), description)]
      && vectors.writes == old(vectors.writes) +
           (if description.Some? then [VectorWrite(ProductCollection, old(products.rows[i]).chromaId, description.value, username)] else [])
    ensures entries.None? ==> images.rows == old(images.rows)
    ensures r != Err(ProductRejected) && entries.Some? ==>
      var kept := DropImagesOf(old(images.rows), old(products.rows[i]).id);
      |kept| <= |images.rows| && images.rows[..|kept|] == kept
    ensures r.Err? ==> r.error.ProductRejected? || r.error.UploadCrashed? || r.error.ImageRejected?
    ensures r.Ok? <==> UpdateSucceeds(i, description, entries, decode, businesses, old(products.rows), old(images.rows))
    ensures r.Ok? ==> r.value == Revised(old(products.rows[i]), description)
    ensures r.Ok? && entries.Some? ==>
      var kept := DropImagesOf(old(images.rows), old(products.rows[i]).id);
      Unstamped(images.rows[|kept|..]) == PlannedImages(r.value.id, entries.value, decode)
  {
    var instance := Revised(products.rows[i], description);
    if description.Some? {
      var ok := products.Save(i, instance, businesses);
      if !ok {
        return Err(ProductRejected);
      }
      ProductSaveKeepsInvariant(businesses, old(products.rows), images.rows, i, instance);
      var call := CallAddProduct(vectors, AddProductCall(instance.chromaId, instance.description, instance.business, username, None));
    }
    if entries.Some? {
      DropImagesKeepsInvariant(businesses, products.rows, images.rows, instance.id);
      images.DeleteImagesOf(instance.id);
      var stored := StoreImages(images, businesses, products.rows, instance.id, entries.value, decode);
      if stored.Err? {
        return Err(stored.error);
      }
    }
    return Ok(instance);
  }

  /**
   * `ProductSerializer.update` as the source writes it: after a description
   * is saved the vector call raises TypeError, so the images are never
   * replaced. Without a description the images are replaced as in `Update`.
   */
  method UpdateAsWritten(products: ProductTable, images: ImageTable, vectors: VectorStore, businesses: seq<Business>,
                         i: nat, username: string, description: Option<string>, entries: Option<seq<string>>,
                         decode: Decoder) returns (r: Result<Product, StoreError>)
    requires i < |products.rows|
    requires CatalogInvariant(businesses, products.rows, images.rows)
    modifies products, images, vectors
    ensures CatalogInvariant(businesses, products.rows, images.rows)
    ensures description.Some? ==> r.Err? && images.rows == old(images.rows) && vectors.writes == old(vectors.writes)
    ensures description.Some? ==>
      (r == Err(ProductRejected) <==>
        !ProductFullClean(Revised(old(products.rows[i]), description), businesses, old(products.rows), Some(old(products.rows[i]).id)))
    ensures description.Some? && r != Err(ProductRejected) ==>
      r == Err(UnexpectedKeyword) && products.rows == old(products.rows)[i := Revised(old(products.rows[i]), description)]
    ensures description.None? ==> products.rows == old(products.rows) && vectors.writes == old(vectors.writes)
    ensures description.None? ==>
      (r.Ok? <==> (entries.Some? ==>
        StoreAccepts(old(products.rows[i]).id, entries.value, decode, old(products.rows),
                     DropImagesOf(old(images.rows), old(products.rows[i]).id))))
    ensures description.None? && entries.Some? ==>
      var kept := DropImagesOf(old(images.rows), old(products.rows[i]).id);
      |kept| <= |images.rows| && images.rows[..|kept|] == kept
  {
    var instance := Revised(products.rows[i], description);
    if description.Some? {
      var ok := products.Save(i, instance, businesses);
      if !ok {
        return Err(ProductRejected);
      }
      ProductSaveKeepsInvariant(businesses, old(products.rows), images.rows, i, instance);
      var call := CallAddProduct(vectors, AddProductCall(instance.chromaId, instance.description, instance.business, username, Some(instance.id)));
      if call.Err? {
        return Err(call.error);
      }
    }
    if entries.Some? {
      DropImagesKeepsInvariant(businesses, products.rows, images.rows, instance.id);
      images.DeleteImagesOf(instance.id);
      var stored := StoreImages(images, businesses, products.rows, instance.id, entries.value, decode);
      if stored.Err? {
        return Err(stored.error);
      }
    }
    return Ok(instance);
  }
}
