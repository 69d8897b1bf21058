/**
 * The OCR request handler: reject a request without an image, strip a data-URI header from
 * the base64 payload, run text recognition, and wrap the extracted fields in the JSON
 * envelope. Base64 decoding and text recognition are foreign code and are parameters here:
 * `decode` is total (decoding a string never fails), `recognize` yields `None` when it fails.
 */
module OcrController {
  import opened Wrappers
  import opened Text
  import opened OcrService

  /** The JSON body: the extracted result, or an error message. */
  datatype Body =
    | Success(validationResult: ValidationResult)
    | Failure(error: string)

  datatype Response = Response(status: int, body: Body)

  const NoImageError := "No image provided"
  const ProcessingError := "Failed to process image"

  const MediaPrefix := "data:image/"
  const Base64Marker := ";base64,"

  /** Number of consecutive `\w` characters from `i`. */
  function WordRun(s: string, i: nat): (n: nat)
    requires i <= |s|
    ensures i + n <= |s|
    ensures forall k :: i <= k < i + n ==> IsWordChar(s[k])
    ensures i + n < |s| ==> !IsWordChar(s[i + n])
    decreases |s| - i
  {
    if i < |s| && IsWordChar(s[i]) then 1 + WordRun(s, i + 1) else 0
  }

  /** `h` is exactly one header `data:image/<\w+>;base64,`. */
  predicate IsDataUriHeader(h: string) {
    |h| > |MediaPrefix| + |Base64Marker| &&
    h[..|MediaPrefix|] == MediaPrefix &&
    (forall k :: |MediaPrefix| <= k < |h| - |Base64Marker| ==> IsWordChar(h[k])) &&
    h[|h| - |Base64Marker|..] == Base64Marker
  }

  /** Length of the header `^data:image\/\w+;base64,` that `s` starts with, or 0 if none. */
  function HeaderLength(s: string): (n: nat)
    ensures n <= |s|
    ensures n > 0 ==> IsDataUriHeader(s[..n])
  {
    if |s| >= |MediaPrefix| && s[..|MediaPrefix|] == MediaPrefix then
      var run := WordRun(s, |MediaPrefix|);
      var m := |MediaPrefix| + run;
      if run > 0 && m + |Base64Marker| <= |s| && s[m..m + |Base64Marker|] == Base64Marker then
        assert s[..m + |Base64Marker|][..|MediaPrefix|] == s[..|MediaPrefix|];
        assert s[..m + |Base64Marker|][m..] == s[m..m + |Base64Marker|];
        m + |Base64Marker|
      else 0
    else 0
  }

  /** `image.replace(/^data:image\/\w+;base64,/, "")`. */
  function StripDataUriPrefix(image: string): (r: string)
    ensures r == image || (|r| < |image| && IsDataUriHeader(image[..|image| - |r|]) && image[|image| - |r|..] == r)
  {
    image[HeaderLength(image)..]
  }

  /** A header is recognised, and all that follows it, of whatever form, is kept exactly. */
  lemma StripHeader(subtype: string, rest: string)
    requires |subtype| > 0 && forall k :: 0 <= k < |subtype| ==> IsWordChar(subtype[k])
    ensures StripDataUriPrefix(MediaPrefix + subtype + Base64Marker + rest) == rest
  {
    var s := MediaPrefix + subtype + Base64Marker + rest;
    var p := |MediaPrefix|;
    var m := p + |subtype|;
    assert s[..p] == MediaPrefix;
    assert forall k :: p <= k < m ==> s[k] == subtype[k - p];
    assert s[m..m + |Base64Marker|] == Base64Marker;
    assert s[m + |Base64Marker|..] == rest;
    HeaderLengthAt(s, m);
  }

  /** Text that starts with `data:image/`, a word up to `m` and `;base64,` has a header up to there. */
  lemma HeaderLengthAt(s: string, m: nat)
    requires |MediaPrefix| < m && m + |Base64Marker| <= |s|
    requires s[..|MediaPrefix|] == MediaPrefix
    requires forall k :: |MediaPrefix| <= k < m ==> IsWordChar(s[k])
    requires s[m..m + |Base64Marker|] == Base64Marker
    ensures HeaderLength(s) == m + |Base64Marker|
  {
    assert s[m] == s[m..m + |Base64Marker|][0] == ';';
    WordRunExact(s, |MediaPrefix|, m - |MediaPrefix|);
  }

  lemma {:induction false} WordRunExact(s: string, i: nat, n: nat)
    requires i + n <= |s|
    requires forall k :: i <= k < i + n ==> IsWordChar(s[k])
    requires i + n == |s| || !IsWordChar(s[i + n])
    ensures WordRun(s, i) == n
    decreases n
  {
    if n > 0 {
      WordRunExact(s, i + 1, n - 1);
    }
  }

  /** The header is removed exactly when the image starts with one, and then only one. */
  lemma StripIff(image: string)
    ensures StripDataUriPrefix(image) != image <==> exists k :: 0 <= k <= |image| && IsDataUriHeader(image[..k])
  {
    if k :| 0 <= k <= |image| && IsDataUriHeader(image[..k]) {
      var h := image[..k];
      var subtype := h[|MediaPrefix|..k - |Base64Marker|];
      assert h == MediaPrefix + subtype + Base64Marker;
      assert image == h + image[k..];
      StripHeader(subtype, image[k..]);
    }
  }

  /** A media type outside `\w+`, as in `data:image/svg+xml;base64,...`, is not stripped. */
  lemma SvgKept(payload: string)
    ensures var image := MediaPrefix + "svg+xml" + Base64Marker + payload;
      StripDataUriPrefix(image) == image
  {
    var image := MediaPrefix + "svg+xml" + Base64Marker + payload;
    var p := |MediaPrefix|;
    assert image[..p] == MediaPrefix;
    assert image[p] == 's' && image[p + 1] == 'v' && image[p + 2] == 'g' && image[p + 3] == '+';
    HeaderStopsAt(image, p + 3);
    assert image[0..] == image;
  }

  /** A word after `data:image/` that ends in anything but `;` is no header. */
  lemma HeaderStopsAt(s: string, m: nat)
    requires |MediaPrefix| <= m < |s|
    requires s[..|MediaPrefix|] == MediaPrefix
    requires forall k :: |MediaPrefix| <= k < m ==> IsWordChar(s[k])
    requires !IsWordChar(s[m]) && s[m] != ';'
    ensures HeaderLength(s) == 0
  {
    WordRunExact(s, |MediaPrefix|, m - |MediaPrefix|);
    if m + |Base64Marker| <= |s| {
      assert s[m..m + |Base64Marker|][0] == s[m];
    }
  }


  /** `!image`: the body field is absent or the empty string. */
  predicate IsFalsy(image: Option<string>) {
    image.None? || image.value == ""
  }

  /**
   * `processOCR`. Without an image: 400 and "No image provided". Otherwise the stripped
   * payload is decoded and recognised; a recognition failure gives 500 and "Failed to
   * process image", success gives 200 with the extracted result for `documentType`.
   */
  function ProcessOcr<Buffer>(image: Option<string>, documentType: string,
                              decode: string -> Buffer, recognize: Buffer -> Option<string>): (r: Response)
    ensures r.status == 200 <==> r.body.Success?
    ensures r.status == 400 <==> IsFalsy(image)
    ensures r.status in {200, 400, 500}
    ensures r.body.Failure? ==> r.body.error == (if IsFalsy(image) then NoImageError else ProcessingError)
  {
    if IsFalsy(image) then Response(400, Failure(NoImageError))
    else
      var base64Data := StripDataUriPrefix(image.value);
      var imageBuffer := decode(base64Data);
      match recognize(imageBuffer)
      case None => Response(500, Failure(ProcessingError))
      case Some(text) => Response(200, Success(ParseKyc(text, documentType)))
  }

  /** Without an image the response does not depend on decoding or recognition: they are never called. */
  lemma NoImageNeverRecognises<Buffer>(image: Option<string>, documentType: string,
                                       decode1: string -> Buffer, recognize1: Buffer -> Option<string>,
                                       decode2: string -> Buffer, recognize2: Buffer -> Option<string>)
    requires IsFalsy(image)
    ensures ProcessOcr(image, documentType, decode1, recognize1) == ProcessOcr(image, documentType, decode2, recognize2)
    ensures ProcessOcr(image, documentType, decode1, recognize1) == Response(400, Failure(NoImageError))
  {
  }

  /** On success the result is the extraction of the recognised text of the stripped payload. */
  lemma SuccessCarriesParse<Buffer>(image: string, documentType: string,
                                    decode: string -> Buffer, recognize: Buffer -> Option<string>)
    requires image != ""
    requires recognize(decode(StripDataUriPrefix(image))).Some?
    ensures ProcessOcr(Some(image), documentType, decode, recognize) ==
      Response(200, Success(ParseKyc(recognize(decode(StripDataUriPrefix(image))).value, documentType)))
  {
  }

  /** A recognition failure yields the 500 envelope and no partial result. */
  lemma FailureHasNoResult<Buffer>(image: string, documentType: string,
                                   decode: string -> Buffer, recognize: Buffer -> Option<string>)
    requires image != ""
    requires recognize(decode(StripDataUriPrefix(image))).None?
    ensures ProcessOcr(Some(image), documentType, decode, recognize) == Response(500, Failure(ProcessingError))
  {
  }
}
