/*
 * Validation shared by the product and business serializers and models:
 * the ten-line limit on free text and the loose `data:` URL parsing of
 * uploaded images (a relaxed form of section 3 of RFC 2397). Base64 decoding
 * (section 4 of RFC 4648) is an abstract `Decoder`.
 */
module Uploads {
  import opened Common

  const MaxLines := 10

  /** `len(text.split('\n'))`: newlines plus one. */
  function LineCount(text: string): (n: nat)
    ensures n == Count(text, '\n') + 1
  {
    |SplitOn(text, '\n')|
  }

  datatype TextError = EmptyText | TooManyLines(lines: nat)

  /**
   * `validate_product_description` and `validate_business_info` (the same
   * body in all four serializers): refuse blank text, refuse more than ten
   * lines of the stripped text, and hand on the stripped text.
   */
  function ValidateTenLineText(value: string): (r: Result<string, TextError>)
    ensures r == Err(EmptyText) <==> Strip(value) == []
    ensures r.Ok? <==> Strip(value) != [] && LineCount(Strip(value)) <= MaxLines
    ensures r.Ok? ==> r.value == Strip(value)
    ensures r.Err? && r.error.TooManyLines? ==> r.error.lines == LineCount(Strip(value)) > MaxLines
  {
    var t := Strip(value);
    if value == [] || t == [] then Err(EmptyText)
    else if LineCount(t) > MaxLines then Err(TooManyLines(LineCount(t)))
    else Ok(t)
  }

  /** What the validator hands on passes it again unchanged. */
  lemma {:induction false} ValidateTenLineTextIdempotent(value: string)
    requires ValidateTenLineText(value).Ok?
    ensures ValidateTenLineText(ValidateTenLineText(value).value) == ValidateTenLineText(value)
  {
    StripIdempotent(value);
  }

  /**
   * The line check of `Business.clean` and `Product.clean`: only non-empty
   * text is checked; `Some(n)` is the refused line count.
   */
  function LineLimitError(text: string): (r: Option<nat>)
    ensures r.None? <==> text == [] || LineCount(Strip(text)) <= MaxLines
    ensures r.Some? ==> r.value == LineCount(Strip(text)) > MaxLines
  {
    if text != [] && LineCount(Strip(text)) > MaxLines then Some(LineCount(Strip(text))) else None
  }

  /** Text accepted by a serializer passes the model's `clean` line check. */
  lemma {:induction false} ValidatedTextPassesLineLimit(value: string)
    requires ValidateTenLineText(value).Ok?
    ensures LineLimitError(ValidateTenLineText(value).value).None?
  {
    StripIdempotent(value);
  }

  /** The model check is weaker: whitespace-only text passes `clean` but no serializer accepts it. */
  lemma WhitespaceOnlyText(s: string)
    requires s != [] && AllSpace(s)
    ensures LineLimitError(s).None?
    ensures ValidateTenLineText(s) == Err(EmptyText)
  {
    assert Strip(s) == [];
  }

  /** An abstract base64 decoder: `None` is the decoding error. */
  type Decoder = string -> Option<seq<Byte>>

  datatype UploadError = MissingComma | NotBase64

  datatype ParsedUpload = ParsedUpload(contentType: string, payload: string)

  datatype DecodedUpload = DecodedUpload(contentType: string, data: seq<Byte>)

  const DataPrefix := "data:"
  const DefaultContentType := "image/jpeg"
  const ImagePrefix := "image/"

  /**
   * The prefix handling repeated in every upload path: a `data:` value is
   * split at its first `,` (no comma is the unpacking ValueError) and its
   * content type is `header.split(':')[1].split(';')[0]`; any other value is
   * the payload itself with the default type.
   */
  function SplitDataUrl(value: string): (r: Result<ParsedUpload, UploadError>)
    ensures !StartsWith(value, DataPrefix) ==> r == Ok(ParsedUpload(DefaultContentType, value))
    ensures StartsWith(value, DataPrefix) ==> (r.Err? <==> ',' !in value)
    ensures r.Ok? && StartsWith(value, DataPrefix) ==>
      exists k | 0 <= k < |value| :: value[k] == ',' && ',' !in value[..k] && r.value.payload == value[k + 1..]
    ensures r.Ok? && StartsWith(value, DataPrefix) ==> ';' !in r.value.contentType
  {
    if StartsWith(value, DataPrefix) then
      match IndexOf(value, ',')
      case None => Err(MissingComma)
      case Some(k) =>
        var header := value[..k];
        assert header[4] == ':';
        var afterColon := SplitOn(header, ':');
        Ok(ParsedUpload(SplitOn(afterColon[1], ';')[0], value[k + 1..]))
    else Ok(ParsedUpload(DefaultContentType, value))
  }

  /** The header of such a data URL splits at its one colon. */
  lemma {:induction false} HeaderSplit(contentType: string, params: string)
    requires ':' !in contentType && ':' !in params
    ensures SplitOn(DataPrefix + contentType + ";" + params, ':') == ["data", contentType + ";" + params]
  {
    var rest := contentType + [';'] + params;
    assert DataPrefix + contentType + ";" + params == "data" + [':'] + rest;
    assert ':' !in rest;
    SplitOnFirst("data", ':', rest);
    SplitOnNone(rest, ':');
  }

  /** A `data:` header without a comma, then a comma: the payload is what follows, the type comes from the header. */
  lemma {:induction false} SplitDataUrlAt(header: string, payload: string)
    requires StartsWith(header, DataPrefix) && ',' !in header
    requires |SplitOn(header, ':')| >= 2
    ensures SplitDataUrl(header + "," + payload) == Ok(ParsedUpload(SplitOn(SplitOn(header, ':')[1], ';')[0], payload))
  {
    var value := header + "," + payload;
    assert value[..|DataPrefix|] == header[..|DataPrefix|];
    IndexOfFirst(header, ',', payload);
    assert value[..|header|] == header;
    assert value[|header| + 1..] == payload;
  }

  /** A data URL built from a content type, parameters and a payload parses back to them. */
  lemma {:induction false} DataUrlRoundTrip(contentType: string, params: string, payload: string)
    requires ':' !in contentType && ';' !in contentType && ',' !in contentType
    requires ':' !in params && ',' !in params
    ensures SplitDataUrl(DataPrefix + contentType + ";" + params + "," + payload)
         == Ok(ParsedUpload(contentType, payload))
  {
    var header := DataPrefix + contentType + ";" + params;
    assert header[..|DataPrefix|] == DataPrefix;
    assert ',' !in header by {
      assert header == "data:" + (contentType + [';'] + params);
    }
    HeaderSplit(contentType, params);
    SplitOnFirst(contentType, ';', params);
    SplitDataUrlAt(header, payload);
  }

  /** Split, then decode the payload. */
  function DecodeUpload(value: string, decode: Decoder): (r: Result<DecodedUpload, UploadError>)
    ensures r.Ok? <==> SplitDataUrl(value).Ok? && decode(SplitDataUrl(value).value.payload).Some?
    ensures r.Ok? ==> r.value.contentType == SplitDataUrl(value).value.contentType
    ensures r.Ok? ==> r.value.data == decode(SplitDataUrl(value).value.payload).value
  {
    match SplitDataUrl(value)
    case Err(e) => Err(e)
    case Ok(parsed) =>
      match decode(parsed.payload)
      case None => Err(NotBase64)
      case Some(bytes) => Ok(DecodedUpload(parsed.contentType, bytes))
  }

  predicate IsImageType(contentType: string)
  {
    StartsWith(contentType, ImagePrefix)
  }
}
