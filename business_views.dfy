/*
 * backend/accounts/views_business.py: the registration guard, the update
 * defaults and the search loop that maps vector-store ids
 * `business_{user_id}_{hex}` back to businesses. The vector search itself
 * is a parameter: the ids it returns, in rank order.
 */
module BusinessViews {
  import opened Common
  import opened Uploads
  import opened Catalog
  import opened BusinessSerializers

  datatype ViewError =
    | AlreadyRegistered            // 400 "You already have a registered business"
    | NotFound                     // 404 from `get_object_or_404`
    | FieldRequired                // 400 "This field is required." for a missing `business_info`
    | InfoInvalid(textError: TextError)
    | LogoInvalid(logoError: LogoError)
    | WriteFailed(writeError: BusinessError)

  /**
   * `BusinessCreateUpdateSerializer`: `business_info` is required unless the
   * request is partial; each given field runs its validator, info first.
   */
  function CheckInput(partial: bool, info: Option<string>, logo: Option<string>, decode: Decoder): (r: Option<ViewError>)
    ensures r.None? <==>
      && (partial || info.Some?)
      && (info.None? || ValidateTenLineText(info.value).Ok?)
      && (logo.None? || ValidateLogo(logo.value, decode).Ok?)
    ensures !partial && info.None? ==> r == Some(FieldRequired)
    ensures info.Some? && ValidateTenLineText(info.value).Err? ==> r == Some(InfoInvalid(ValidateTenLineText(info.value).error))
    ensures (partial || info.Some?) && (info.None? || ValidateTenLineText(info.value).Ok?) &&
            logo.Some? && ValidateLogo(logo.value, decode).Err? ==>
      r == Some(LogoInvalid(ValidateLogo(logo.value, decode).error))
  {
    if !partial && info.None? then Some(FieldRequired)
    else if info.Some? && ValidateTenLineText(info.value).Err? then Some(InfoInvalid(ValidateTenLineText(info.value).error))
    else if logo.Some? && ValidateLogo(logo.value, decode).Err? then Some(LogoInvalid(ValidateLogo(logo.value, decode).error))
    else None
  }

  /**
   * The row registration creates once the input passed: the stripped info,
   * and the logo fields of a non-empty logo (`validated_data.get('logo', '')`).
   */
  function RegisteredRow(userId: nat, username: string, info: string, logo: Option<string>, suffix: string,
                         decode: Decoder): (r: Result<Business, UploadError>)
    ensures r.Ok? ==> r.value.user == userId && r.value.info == Strip(info) && r.value.chromaId == BusinessChromaId(userId, suffix)
    ensures logo.Some? && ValidateLogo(logo.value, decode).Ok? ==> r.Ok?
    ensures logo.None? ==> r.Ok? && r.value.logo.None?
  {
    CreatedBusiness(userId, username, Strip(info), Some(if logo.Some? then logo.value else ""), suffix, decode)
  }

  /**
   * `BusinessRegisterView.create`: refuse a user who already has a
   * business, validate the input, validate it again in `BusinessSerializer`
   * (the stripped info and the same logo pass again), then create.
   */
  method Register(businesses: BusinessTable, vectors: VectorStore, ghost products: seq<Product>, ghost images: seq<ProductImage>,
                  userId: nat, username: string, info: Option<string>, logo: Option<string>, suffix: string,
                  decode: Decoder) returns (r: Result<Business, ViewError>)
    requires CatalogInvariant(businesses.rows, products, images)
    modifies businesses, vectors
    ensures CatalogInvariant(businesses.rows, products, images)
    ensures BusinessOfUser(old(businesses.rows), userId).Some? ==> r == Err(AlreadyRegistered)
    ensures BusinessOfUser(old(businesses.rows), userId).None? && CheckInput(false, info, logo, decode).Some? ==>
      r == Err(CheckInput(false, info, logo, decode).value)
    ensures r.Ok? <==>
      && BusinessOfUser(old(businesses.rows), userId).None?
      && CheckInput(false, info, logo, decode).None?
      && RegisteredRow(userId, username, info.value, logo, suffix, decode).Ok?
      && BusinessFullClean(RegisteredRow(userId, username, info.value, logo, suffix, decode).value, old(businesses.rows), None)
    ensures r.Ok? ==>
      && r.value == RegisteredRow(userId, username, info.value, logo, suffix, decode).value.(id := old(businesses.nextId))
      && businesses.rows == old(businesses.rows) + [r.value]
      && vectors.writes == old(vectors.writes) + [VectorWrite(BusinessCollection, r.value.chromaId, r.value.info, username)]
    ensures r.Err? ==> businesses.rows == old(businesses.rows) && vectors.writes == old(vectors.writes)
  {
    if BusinessOfUser(businesses.rows, userId).Some? {
      return Err(AlreadyRegistered);
    }
    var refused := CheckInput(false, info, logo, decode);
    if refused.Some? {
      return Err(refused.value);
    }
    var logoUpload := if logo.Some? then logo.value else "";
    // `BusinessSerializer` validates both fields again; neither can fail now
    ValidateTenLineTextIdempotent(info.value);
    var infoAgain := ValidateTenLineText(Strip(info.value));
    var logoAgain := ValidateLogo(logoUpload, decode);
    assert infoAgain.Ok? && infoAgain.value == Strip(info.value) && logoAgain.Ok?;
    var created := Create(businesses, vectors, products, images, userId, username, infoAgain.value, Some(logoUpload), suffix, decode);
    if created.Err? {
      return Err(WriteFailed(created.error));
    }
    return Ok(created.value);
  }

  /**
   * A first registration with valid input is stored, as long as the random
   * vector id is new and short enough and the username and the logo's
   * content type fit their columns.
   */
  lemma {:induction false} FreshRegistrationClean(rows: seq<Business>, userId: nat, username: string, info: string,
                                                  logo: Option<string>, suffix: string, decode: Decoder)
    requires BusinessOfUser(rows, userId).None?
    requires CheckInput(false, Some(info), logo, decode).None?
    requires forall j | 0 <= j < |rows| :: rows[j].chromaId != BusinessChromaId(userId, suffix)
    requires |BusinessChromaId(userId, suffix)| <= ChromaIdMaxLength
    requires |"business_logo_" + username| <= FilenameMaxLength
    requires logo.Some? && logo.value != [] && DecodeUpload(logo.value, decode).Ok? ==>
      |DecodeUpload(logo.value, decode).value.contentType| <= ContentTypeMaxLength
    ensures RegisteredRow(userId, username, info, logo, suffix, decode).Ok?
    ensures BusinessFullClean(RegisteredRow(userId, username, info, logo, suffix, decode).value, rows, None)
  {
    var b := RegisteredRow(userId, username, info, logo, suffix, decode).value;
    ValidatedTextPassesLineLimit(info);
    assert b.info == ValidateTenLineText(info).value;
    assert BusinessClean(b).None?;
    assert b.chromaId != [] by {
      assert StartsWith(b.chromaId, "business_");
    }
  }

  /** `update_data` of `BusinessDetailView.update`: the current info unless new info is given, and `''` (no change) for the logo. */
  function UpdateData(current: Business, info: Option<string>, logo: Option<string>): (d: (string, string))
    ensures d.0 == (if info.Some? then info.value else current.info)
    ensures d.1 == (if logo.Some? then logo.value else "")
  {
    (if info.Some? then info.value else current.info, if logo.Some? then logo.value else "")
  }

  /**
   * Both validation passes of `BusinessDetailView.update`: the input
   * serializer on the fields given (a full update needs the info), then
   * `BusinessSerializer` on the defaulted data (the stored info is validated
   * when none is given). The result is the info and logo handed to `update`.
   */
  function UpdateRequest(current: Business, partial: bool, info: Option<string>, logo: Option<string>,
                         decode: Decoder): (r: Result<(string, string), ViewError>)
    ensures !partial && info.None? ==> r == Err(FieldRequired)
    ensures CheckInput(partial, info, logo, decode).Some? ==> r == Err(CheckInput(partial, info, logo, decode).value)
    ensures r.Ok? <==> CheckInput(partial, info, logo, decode).None? && ValidateTenLineText(UpdateData(current, info, logo).0).Ok?
    ensures r.Ok? ==> r.value.0 == Strip(UpdateData(current, info, logo).0)
    ensures r.Ok? ==> r.value.1 == UpdateData(current, info, logo).1 && ValidateLogo(r.value.1, decode).Ok?
  {
    match CheckInput(partial, info, logo, decode)
    case Some(e) => Err(e)
    case None =>
      var given := if info.Some? then Some(ValidateTenLineText(info.value).value) else None;
      if info.Some? then StripIdempotent(info.value); RequestAfterInput(current, given, logo, decode)
      else RequestAfterInput(current, given, logo, decode)
  }

  /** `BusinessSerializer` on the defaulted data: the info is validated again; the logo passed already. */
  function RequestAfterInput(current: Business, given: Option<string>, logo: Option<string>, decode: Decoder): (r: Result<(string, string), ViewError>)
    ensures r.Ok? <==> ValidateTenLineText(UpdateData(current, given, logo).0).Ok?
    ensures r.Ok? ==> r.value == (Strip(UpdateData(current, given, logo).0), UpdateData(current, given, logo).1)
  {
    var data := UpdateData(current, given, logo);
    match ValidateTenLineText(data.0)
    case Err(e) => Err(InfoInvalid(e))
    case Ok(t) => Ok((t, data.1))
  }

  /** The instance the update saves, for an accepted request. */
  function UpdatedRow(current: Business, username: string, request: (string, string), decode: Decoder): (r: Result<Business, UploadError>)
    ensures ValidateLogo(request.1, decode).Ok? ==> r.Ok?
    ensures r.Ok? ==> r.value.id == current.id && r.value.user == current.user && r.value.chromaId == current.chromaId
    ensures r.Ok? ==> r.value.info == request.0
    ensures request.1 == [] ==>
      r.Ok? && r.value.logo == current.logo && r.value.logoFilename == current.logoFilename &&
      r.value.logoContentType == current.logoContentType
    ensures request.1 != [] && r.Ok? ==>
      DecodeUpload(request.1, decode).Ok? &&
      r.value.logo == Some(DecodeUpload(request.1, decode).value.data) &&
      r.value.logoFilename == Some("business_logo_" + username)
  {
    UpdatedBusiness(current, username, Some(request.0), Some(request.1), decode)
  }

  /**
   * `BusinessDetailView.update` for the requesting user: 404 without a
   * business; the input serializer runs (partial or not); then
   * `BusinessSerializer` validates the defaulted data and updates.
   */
  method UpdateView(businesses: BusinessTable, vectors: VectorStore, ghost products: seq<Product>, ghost images: seq<ProductImage>,
                    userId: nat, username: string, partial: bool, info: Option<string>, logo: Option<string>,
                    decode: Decoder) returns (r: Result<Business, ViewError>)
    requires CatalogInvariant(businesses.rows, products, images)
    modifies businesses, vectors
    ensures CatalogInvariant(businesses.rows, products, images)
    ensures BusinessOfUser(old(businesses.rows), userId).None? <==> r == Err(NotFound)
    ensures r != Err(NotFound) && !partial && info.None? ==> r == Err(FieldRequired)
    ensures r.Err? ==> businesses.rows == old(businesses.rows)
    ensures r == Err(NotFound) ==> vectors.writes == old(vectors.writes)
    ensures BusinessOfUser(old(businesses.rows), userId).Some? ==>
      var current := BusinessOfUser(old(businesses.rows), userId).value;
      var request := UpdateRequest(current, partial, info, logo, decode);
      request.Err? ==> r == Err(request.error) && vectors.writes == old(vectors.writes)
    ensures BusinessOfUser(old(businesses.rows), userId).Some? ==>
      var current := BusinessOfUser(old(businesses.rows), userId).value;
      var request := UpdateRequest(current, partial, info, logo, decode);
      request.Ok? ==>
        var row := UpdatedRow(current, username, request.value, decode).value;
        && (r.Ok? <==> BusinessFullClean(row, old(businesses.rows), Some(current.id)))
        && (r.Err? ==> r == Err(WriteFailed(BusinessRejected)))
        && vectors.writes == old(vectors.writes) + [VectorWrite(BusinessCollection, current.chromaId, request.value.0, username)]
        && (r.Ok? ==> r.value == row && businesses.rows == ReplaceOwnRow(old(businesses.rows), userId, row))
  {
    var found := BusinessOfUser(businesses.rows, userId);
    if found.None? {
      return Err(NotFound);
    }
    var current := found.value;
    var request := UpdateRequest(current, partial, info, logo, decode);
    if request.Err? {
      return Err(request.error);
    }
    r := SaveUpdate(businesses, vectors, products, images, userId, current, username, request.value, decode);
  }

  /**
   * The row an accepted update request saves keeps its key, owner and
   * vector id, carries the stripped defaulted info, and keeps the stored
   * logo unless a non-empty one was sent.
   */
  lemma {:induction false} UpdatedRowFields(current: Business, username: string, partial: bool, info: Option<string>,
                                            logo: Option<string>, decode: Decoder)
    requires UpdateRequest(current, partial, info, logo, decode).Ok?
    ensures var row := UpdatedRow(current, username, UpdateRequest(current, partial, info, logo, decode).value, decode).value;
      && row.id == current.id && row.user == current.user && row.chromaId == current.chromaId
      && row.info == Strip(UpdateData(current, info, logo).0)
      && (logo.None? || logo.value == [] ==>
            row.logo == current.logo && row.logoFilename == current.logoFilename &&
            row.logoContentType == current.logoContentType)
      && (logo.Some? && logo.value != [] ==>
            row.logo == Some(DecodeUpload(logo.value, decode).value.data) &&
            row.logoFilename == Some("business_logo_" + username))
  {
  }

  /**
   * The write of `BusinessDetailView.update` once the request passed: the
   * info is upserted, then the user's row is saved through `full_clean`.
   */
  method SaveUpdate(businesses: BusinessTable, vectors: VectorStore, ghost products: seq<Product>, ghost images: seq<ProductImage>,
                    userId: nat, current: Business, username: string, request: (string, string),
                    decode: Decoder) returns (r: Result<Business, ViewError>)
    requires CatalogInvariant(businesses.rows, products, images)
    requires BusinessOfUser(businesses.rows, userId) == Some(current)
    requires ValidateLogo(request.1, decode).Ok?
    modifies businesses, vectors
    ensures CatalogInvariant(businesses.rows, products, images)
    ensures r.Ok? <==> BusinessFullClean(UpdatedRow(current, username, request, decode).value, old(businesses.rows), Some(current.id))
    ensures r.Err? ==> r == Err(WriteFailed(BusinessRejected)) && businesses.rows == old(businesses.rows)
    ensures r.Ok? ==>
      && r.value == UpdatedRow(current, username, request, decode).value
      && businesses.rows == ReplaceOwnRow(old(businesses.rows), userId, r.value)
    ensures vectors.writes == old(vectors.writes) + [VectorWrite(BusinessCollection, current.chromaId, request.0, username)]
  {
    var i := IndexOfBusiness(businesses.rows, current);
    var updated := Update(businesses, vectors, products, images, i, username, Some(request.0), Some(request.1), decode);
    if updated.Err? {
      return Err(WriteFailed(updated.error));
    }
    OnlyOwnRowReplaced(old(businesses.rows), i, updated.value);
    return Ok(updated.value);
  }

  /** With one business per user, replacing the user's row leaves every other user's row alone. */
  lemma {:induction false} OnlyOwnRowReplaced(rows: seq<Business>, i: nat, b: Business)
    requires BusinessesUnique(rows) && i < |rows| && b.user == rows[i].user
    ensures rows[i := b] == ReplaceOwnRow(rows, b.user, b)
  {
  }

  /** The table with the row of `user` replaced by `b`; every other row stays. */
  function ReplaceOwnRow(rows: seq<Business>, user: nat, b: Business): (r: seq<Business>)
    ensures |r| == |rows|
    ensures forall k | 0 <= k < |rows| :: r[k] == if rows[k].user == user then b else rows[k]
  {
    seq(|rows|, k requires 0 <= k < |rows| => if rows[k].user == user then b else rows[k])
  }

  /** The position of a stored row. */
  method IndexOfBusiness(rows: seq<Business>, b: Business) returns (i: nat)
    requires b in rows
    ensures i < |rows| && rows[i] == b
  {
    i := 0;
    while rows[i] != b
      invariant i < |rows| && b in rows[i..]
      decreases |rows| - i
    {
      assert rows[i..] == [rows[i]] + rows[i + 1..];
      i := i + 1;
    }
  }

  // ---- search --------------------------------------------------------------

  /**
   * `int(result['id'].split('_')[1])` when the id has at least two parts;
   * `None` when there are fewer parts or `int` raises.
   */
  function ParseBusinessUserId(id: string): (r: Option<int>)
    ensures |SplitOn(id, '_')| < 2 ==> r.None?
    ensures |SplitOn(id, '_')| >= 2 ==> r == ParseInt(SplitOn(id, '_')[1])
  {
    var parts := SplitOn(id, '_');
    if |parts| >= 2 then ParseInt(parts[1]) else None
  }

  /** The id a business is created with parses back to its owner's user id. */
  lemma {:induction false} ChromaIdRoundTrip(userId: nat, suffix: string)
    ensures ParseBusinessUserId(BusinessChromaId(userId, suffix)) == Some(userId)
  {
    var digits := Decimal(userId);
    assert '_' !in "business";
    assert '_' !in digits by {
      forall k | 0 <= k < |digits| ensures digits[k] != '_' {
        assert IsDigit(digits[k]);
      }
    }
    assert BusinessChromaId(userId, suffix) == "business" + ['_'] + (digits + ['_'] + suffix);
    SplitOnFirst("business", '_', digits + ['_'] + suffix);
    SplitOnFirst(digits, '_', suffix);
    ParseIntDecimal(userId);
  }

  /** The business one search result maps to, if any. */
  function SearchHit(id: string, rows: seq<Business>): (r: Option<Business>)
    ensures r.Some? ==> r.value in rows
    ensures r.Some? <==> ParseBusinessUserId(id).Some? && BusinessOfUser(rows, ParseBusinessUserId(id).value).Some?
  {
    match ParseBusinessUserId(id)
    case None => None
    case Some(uid) => BusinessOfUser(rows, uid)
  }

  /** The businesses the search loop collects, in result order. */
  function SearchHits(ids: seq<string>, rows: seq<Business>): (hits: seq<Business>)
    ensures |hits| <= |ids|
    ensures forall k | 0 <= k < |hits| :: hits[k] in rows
  {
    if ids == [] then []
    else
      var last := SearchHit(ids[|ids| - 1], rows);
      SearchHits(ids[..|ids| - 1], rows) + (if last.Some? then [last.value] else [])
  }

  /** The loop keeps search order: results appended later come later. */
  lemma {:induction false} SearchHitsAppend(a: seq<string>, b: seq<string>, rows: seq<Business>)
    ensures SearchHits(a + b, rows) == SearchHits(a, rows) + SearchHits(b, rows)
    decreases |b|
  {
    if b != [] {
      var n := |b| - 1;
      assert (a + b)[..|a + b| - 1] == a + b[..n];
      assert (a + b)[|a + b| - 1] == b[n];
      SearchHitsAppend(a, b[..n], rows);
    } else {
      assert a + b == a;
    }
  }

  /** A result carrying a stored business's own id finds exactly that business. */
  lemma {:induction false} RegisteredBusinessFound(rows: seq<Business>, k: nat, suffix: string)
    requires BusinessesUnique(rows) && k < |rows|
    requires rows[k].chromaId == BusinessChromaId(rows[k].user, suffix)
    ensures SearchHits([rows[k].chromaId], rows) == [rows[k]]
  {
    ChromaIdRoundTrip(rows[k].user, suffix);
    BusinessOfUserFindsRow(rows, k);
    assert [rows[k].chromaId][..0] == [];
  }

  datatype SearchResponse =
    | QueryRequired                               // 400
    | Results(businesses: seq<Business>, count: nat)

  /** `BusinessSearchView.post`: an empty query is refused; otherwise each result is mapped, bad ids skipped. */
  method Search(query: string, resultIds: seq<string>, rows: seq<Business>) returns (response: SearchResponse)
    ensures query == [] <==> response == QueryRequired
    ensures response.Results? ==> response.businesses == SearchHits(resultIds, rows)
    ensures response.Results? ==> response.count == |response.businesses| <= |resultIds|
  {
    if query == [] {
      return QueryRequired;
    }
    var found: seq<Business> := [];
    var k := 0;
    while k < |resultIds|
      invariant 0 <= k <= |resultIds|
      invariant found == SearchHits(resultIds[..k], rows)
    {
      assert resultIds[..k + 1][..k] == resultIds[..k];
      var parts := SplitOn(resultIds[k], '_');
      if |parts| >= 2 {
        var userId := ParseInt(parts[1]);
        if userId.Some? {
          var business := BusinessOfUser(rows, userId.value);
          if business.Some? {
            found := found + [business.value];
          }
        }
      }
      k := k + 1;
    }
    assert resultIds[..k] == resultIds;
    return Results(found, |found|);
  }
}
