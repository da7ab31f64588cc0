/*
 * backend/accounts/serializers_business.py: the logo validators shared by
 * `BusinessSerializer` and `BusinessCreateUpdateSerializer`, and
 * `BusinessSerializer.create`/`update`, which write the business row and
 * its vector document. The business-info validator is
 * `Uploads.ValidateTenLineText`.
 */
module BusinessSerializers {
  import opened Common
  import opened Uploads
  import opened Catalog

  /** Why a logo was refused; every cause is reported as "Invalid image data: ...". */
  datatype LogoCause =
    | Unreadable(e: UploadError)  // the split or the base64 decoding raised
    | TooLarge(size: nat)
    | NotAnImageType

  datatype LogoError = InvalidImageData(cause: LogoCause)

  /** A non-empty logo the validators accept. */
  predicate LogoAccepted(value: string, decode: Decoder)
  {
    && DecodeUpload(value, decode).Ok?
    && ValidateImageSize(|DecodeUpload(value, decode).value.data|)
    && IsImageType(DecodeUpload(value, decode).value.contentType)
  }

  /**
   * `validate_logo_upload` and `validate_logo` (the same body): an empty
   * value passes unchanged; otherwise the size is checked before the type,
   * and `len(data) / 1024 > 200` is the integer test `len(data) > 204800`.
   */
  function ValidateLogo(value: string, decode: Decoder): (r: Result<string, LogoError>)
    ensures r.Ok? <==> value == [] || LogoAccepted(value, decode)
    ensures r.Ok? ==> r.value == value
    ensures value != [] && DecodeUpload(value, decode).Err? ==>
      r == Err(InvalidImageData(Unreadable(DecodeUpload(value, decode).error)))
    ensures value != [] && DecodeUpload(value, decode).Ok? && |DecodeUpload(value, decode).value.data| > MaxLogoBytes ==>
      r == Err(InvalidImageData(TooLarge(|DecodeUpload(value, decode).value.data|)))
    ensures r == Err(InvalidImageData(NotAnImageType)) ==>
      DecodeUpload(value, decode).Ok? && |DecodeUpload(value, decode).value.data| <= MaxLogoBytes
  {
    if value == [] then Ok(value)
    else
      match DecodeUpload(value, decode)
      case Err(e) => Err(InvalidImageData(Unreadable(e)))
      case Ok(upload) =>
        if |upload.data| > 200 * 1024 then Err(InvalidImageData(TooLarge(|upload.data|)))
        else if !IsImageType(upload.contentType) then Err(InvalidImageData(NotAnImageType))
        else Ok(value)
  }

  /** A logo of exactly 200 KiB that decodes to an image is accepted; one byte more is refused. */
  lemma {:induction false} LogoBoundary(value: string, decode: Decoder)
    requires value != [] && DecodeUpload(value, decode).Ok? && IsImageType(DecodeUpload(value, decode).value.contentType)
    ensures |DecodeUpload(value, decode).value.data| == 204800 ==> ValidateLogo(value, decode).Ok?
    ensures |DecodeUpload(value, decode).value.data| == 204801 ==> ValidateLogo(value, decode).Err?
  {
  }

  /**
   * Every logo the serializer accepts also meets `validate_image_size`, the
   * size bound declared beside the model; no field attaches that validator,
   * so the serializer's check is the only one that runs.
   */
  lemma {:induction false} AcceptedLogoMeetsSizeValidator(value: string, decode: Decoder)
    requires value != [] && ValidateLogo(value, decode).Ok?
    ensures DecodeUpload(value, decode).Ok?
    ensures ValidateImageSize(|LogoFields(value, "", decode).value.logo.value|)
  {
  }

  /** The `logo`, `logo_content_type` and `logo_filename` a non-empty logo sets. */
  datatype Logo = Logo(logo: Option<seq<Byte>>, contentType: Option<string>, filename: Option<string>)

  /** Decoding a given logo for storage, with filename `business_logo_{username}`. */
  function LogoFields(value: string, username: string, decode: Decoder): (r: Result<Logo, UploadError>)
    requires value != []
    ensures r.Ok? <==> DecodeUpload(value, decode).Ok?
    ensures r.Ok? ==> r.value.logo == Some(DecodeUpload(value, decode).value.data)
    ensures r.Ok? ==> r.value.contentType == Some(DecodeUpload(value, decode).value.contentType)
    ensures r.Ok? ==> r.value.filename == Some("business_logo_" + username)
  {
    match DecodeUpload(value, decode)
    case Err(e) => Err(e)
    case Ok(upload) => Ok(Logo(Some(upload.data), Some(upload.contentType), Some("business_logo_" + username)))
  }

  function WithLogo(b: Business, l: Logo): (r: Business)
    ensures r.id == b.id && r.user == b.user && r.info == b.info && r.chromaId == b.chromaId
    ensures r.logo == l.logo && r.logoContentType == l.contentType && r.logoFilename == l.filename
  {
    b.(logo := l.logo, logoContentType := l.contentType, logoFilename := l.filename)
  }

  /** `f"business_{user.id}_{uuid.uuid4().hex[:8]}"`, with the random part given. */
  function BusinessChromaId(userId: nat, suffix: string): (id: string)
    ensures StartsWith(id, "business_") && |id| == 10 + |Decimal(userId)| + |suffix|
  {
    "business_" + Decimal(userId) + "_" + suffix
  }

  datatype BusinessError =
    | LogoCrashed(e: UploadError)  // the split or decoding raised outside any try
    | BusinessRejected             // the row failed `full_clean`

  /** The row `create` hands to `Business.objects.create`, without a logo and before its key is assigned. */
  function NewBusiness(userId: nat, info: string, suffix: string): (b: Business)
    ensures b.user == userId && b.info == info && b.chromaId == BusinessChromaId(userId, suffix)
    ensures b.logo.None? && b.logoContentType.None? && b.logoFilename.None?
  {
    Business(0, userId, info, None, None, None, BusinessChromaId(userId, suffix))
  }

  /** The row `create` inserts: the logo fields are set only when a non-empty logo is given. */
  function CreatedBusiness(userId: nat, username: string, info: string, logo: Option<string>, suffix: string,
                           decode: Decoder): (r: Result<Business, UploadError>)
    ensures (logo.None? || logo.value == []) ==> r == Ok(NewBusiness(userId, info, suffix))
    ensures r.Ok? ==> r.value.user == userId && r.value.info == info && r.value.chromaId == BusinessChromaId(userId, suffix)
    ensures logo.Some? && logo.value != [] ==> (r.Ok? <==> DecodeUpload(logo.value, decode).Ok?)
    ensures logo.Some? && logo.value != [] && r.Ok? ==>
      r.value.logoFilename == Some("business_logo_" + username) &&
      r.value.logo == Some(DecodeUpload(logo.value, decode).value.data)
  {
    var b := NewBusiness(userId, info, suffix);
    if logo.None? || logo.value == [] then Ok(b)
    else
      match LogoFields(logo.value, username, decode)
      case Err(e) => Err(e)
      case Ok(l) => Ok(WithLogo(b, l))
  }

  /**
   * `BusinessSerializer.create`: build the row, insert it (after
   * `full_clean`), then upsert its info into the business collection.
   */
  method Create(businesses: BusinessTable, vectors: VectorStore, ghost products: seq<Product>, ghost images: seq<ProductImage>,
                userId: nat, username: string, info: string, logo: Option<string>, suffix: string,
                decode: Decoder) returns (r: Result<Business, BusinessError>)
    requires CatalogInvariant(businesses.rows, products, images)
    modifies businesses, vectors
    ensures CatalogInvariant(businesses.rows, products, images)
    ensures var built := CreatedBusiness(userId, username, info, logo, suffix, decode);
      && (built.Err? ==> r == Err(LogoCrashed(built.error)))
      && (built.Ok? ==> (r.Ok? <==> BusinessFullClean(built.value, old(businesses.rows), None)))
      && (r.Ok? ==> built.Ok? && r.value == built.value.(id := old(businesses.nextId)))
    ensures r.Ok? ==>
      && businesses.rows == old(businesses.rows) + [r.value]
      && vectors.writes == old(vectors.writes) + [VectorWrite(BusinessCollection, BusinessChromaId(userId, suffix), info, username)]
    ensures r.Err? ==> businesses.rows == old(businesses.rows) && vectors.writes == old(vectors.writes)
  {
    var built := CreatedBusiness(userId, username, info, logo, suffix, decode);
    if built.Err? {
      return Err(LogoCrashed(built.error));
    }
    var saved := businesses.Insert(built.value);
    if saved.None? {
      return Err(BusinessRejected);
    }
    BusinessInsertKeepsInvariant(old(businesses.rows), products, images, saved.value);
    vectors.Upsert(VectorWrite(BusinessCollection, saved.value.chromaId, saved.value.info, username));
    return Ok(saved.value);
  }

  /** The instance `update` saves: a given logo replaces the logo fields, given info replaces the info. */
  function UpdatedBusiness(b: Business, username: string, info: Option<string>, logo: Option<string>,
                           decode: Decoder): (r: Result<Business, UploadError>)
    ensures r.Ok? ==> r.value.id == b.id && r.value.user == b.user && r.value.chromaId == b.chromaId
    ensures r.Ok? ==> r.value.info == (if info.Some? then info.value else b.info)
    ensures (logo.None? || logo.value == []) ==>
      (r.Ok? && r.value.logo == b.logo && r.value.logoContentType == b.logoContentType && r.value.logoFilename == b.logoFilename)
    ensures logo.Some? && logo.value != [] ==> (r.Ok? <==> DecodeUpload(logo.value, decode).Ok?)
    ensures logo.Some? && logo.value != [] && r.Ok? ==>
      r.value.logoFilename == Some("business_logo_" + username) &&
      r.value.logo == Some(DecodeUpload(logo.value, decode).value.data)
  {
    var withInfo := if info.Some? then b.(info := info.value) else b;
    if logo.None? || logo.value == [] then Ok(withInfo)
    else
      match LogoFields(logo.value, username, decode)
      case Err(e) => Err(e)
      case Ok(l) => Ok(WithLogo(withInfo, l))
  }

  /**
   * `BusinessSerializer.update` on stored business `i`. Given info is
   * upserted into the vector store before `save` runs `full_clean`, so a
   * rejected save still leaves the new document in the store.
   */
  method Update(businesses: BusinessTable, vectors: VectorStore, ghost products: seq<Product>, ghost images: seq<ProductImage>,
                i: nat, username: string, info: Option<string>, logo: Option<string>,
                decode: Decoder) returns (r: Result<Business, BusinessError>)
    requires i < |businesses.rows|
    requires CatalogInvariant(businesses.rows, products, images)
    modifies businesses, vectors
    ensures CatalogInvariant(businesses.rows, products, images)
    ensures var built := UpdatedBusiness(old(businesses.rows[i]), username, info, logo, decode);
      built.Err? ==> r == Err(LogoCrashed(built.error)) && vectors.writes == old(vectors.writes)
    ensures var built := UpdatedBusiness(old(businesses.rows[i]), username, info, logo, decode);
      built.Ok? ==> (r.Ok? <==> BusinessFullClean(built.value, old(businesses.rows), Some(built.value.id)))
    ensures var built := UpdatedBusiness(old(businesses.rows[i]), username, info, logo, decode);
      built.Ok? && r.Err? ==> r == Err(BusinessRejected)
    ensures var built := UpdatedBusiness(old(businesses.rows[i]), username, info, logo, decode);
      built.Ok? ==>
        vectors.writes == old(vectors.writes) +
          (if info.Some? then [VectorWrite(BusinessCollection, old(businesses.rows[i]).chromaId, info.value, username)] else [])
    ensures var built := UpdatedBusiness(old(businesses.rows[i]), username, info, logo, decode);
      r.Ok? ==> built.Ok? && r.value == built.value && businesses.rows == old(businesses.rows)[i := built.value]
    ensures r.Err? ==> businesses.rows == old(businesses.rows)
  {
    var built := UpdatedBusiness(businesses.rows[i], username, info, logo, decode);
    if built.Err? {
      return Err(LogoCrashed(built.error));
    }
    var instance := built.value;
    if info.Some? {
      vectors.Upsert(VectorWrite(BusinessCollection, instance.chromaId, instance.info, username));
    }
    assert vectors.writes == old(vectors.writes) +
      (if info.Some? then [VectorWrite(BusinessCollection, old(businesses.rows[i]).chromaId, info.value, username)] else []);
    var ok := businesses.Save(i, instance);
    if !ok {
      return Err(BusinessRejected);
    }
    BusinessSaveKeepsInvariant(old(businesses.rows), products, images, i, instance);
    return Ok(instance);
  }
}
