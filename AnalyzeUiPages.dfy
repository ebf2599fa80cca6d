/** The Anthropic analysis proxy (`pages/api/analyze-ui`): the resize
    arithmetic of its client-side image compressor, the removal of a
    `data:image/<type>;base64,` prefix, and the handler's order of checks and
    status codes around the one upstream call. */
module AnalyzeUiPages {
  import opened Common
  import opened Text
  import opened Http
  import opened JsonExtraction

  /** Neither side of a compressed image exceeds this many pixels. */
  const MaxDimension: nat := 800

  /** `Math.round(p / q)` for a non-negative ratio: the integer nearest to
      `p / q`, halves rounded up (`r - 1/2 <= p/q < r + 1/2`, multiplied out). */
  function RoundRatio(p: nat, q: nat): (r: nat)
    requires q > 0
    ensures -(q as int) <= 2 * p - 2 * q * r < q
  {
    (2 * p + q) / (2 * q)
  }

  /** Cancelling a positive factor in a strict product inequality. */
  lemma ProductBound(q: nat, r: nat, k: nat)
    requires q > 0 && q * r < q * (k + 1)
    ensures r <= k
  {
  }

  /** Rounding never passes an integer bound that the exact ratio respects. */
  lemma RoundRatioAtMost(p: nat, q: nat, k: nat)
    requires q > 0 && p <= k * q
    ensures RoundRatio(p, q) <= k
  {
    var r := RoundRatio(p, q);
    assert 2 * q * r < 2 * p + q + q;
    assert q * r < q * (k + 1);
    ProductBound(q, r, k);
  }

  /** The size computation in `compressImage`: an image larger than 800 pixels
      on either side is scaled so its longer side (the width only when it is
      strictly longer) is exactly 800 and the other side keeps the aspect
      ratio up to rounding; a smaller image keeps its size. */
  method FitWithin(imgWidth: nat, imgHeight: nat) returns (width: nat, height: nat)
    ensures imgWidth <= MaxDimension && imgHeight <= MaxDimension ==>
              width == imgWidth && height == imgHeight
    ensures (imgWidth > MaxDimension || imgHeight > MaxDimension) && imgWidth > imgHeight ==>
              width == MaxDimension && height == RoundRatio(imgHeight * MaxDimension, imgWidth)
    ensures (imgWidth > MaxDimension || imgHeight > MaxDimension) && imgWidth <= imgHeight ==>
              height == MaxDimension && width == RoundRatio(imgWidth * MaxDimension, imgHeight)
    ensures width <= MaxDimension && height <= MaxDimension
    ensures imgWidth > MaxDimension || imgHeight > MaxDimension ==>
              var longer := if imgWidth > imgHeight then imgWidth else imgHeight;
              -(longer as int) <= 2 * (width * imgHeight - height * imgWidth) <= longer
  {
    width := imgWidth;
    height := imgHeight;
    if width > MaxDimension || height > MaxDimension {
      if width > height {
        RoundRatioAtMost(height * MaxDimension, width, MaxDimension);
        height := RoundRatio(height * MaxDimension, width);
        width := MaxDimension;
      } else {
        RoundRatioAtMost(width * MaxDimension, height, MaxDimension);
        width := RoundRatio(width * MaxDimension, height);
        height := MaxDimension;
      }
    }
  }

  /** `serverCompressImage`: on the server the image is passed on as it is. */
  function ServerCompressImage(base64Image: string): (r: string)
    ensures r == base64Image
  {
    base64Image
  }

  const DataImage := "data:image/"
  const Base64Marker := ";base64,"

  /** The regular-expression class `\w`: an ASCII letter, digit or underscore. */
  predicate WordChar(c: char) {
    'a' <= c <= 'z' || 'A' <= c <= 'Z' || '0' <= c <= '9' || c == '_'
  }

  /** A text that `/^data:image\/\w+;base64,/` matches in full. */
  predicate IsDataImagePrefix(p: string) {
    |p| > |DataImage| + |Base64Marker| &&
    p[..|DataImage|] == DataImage &&
    p[|p| - |Base64Marker|..] == Base64Marker &&
    forall i :: |DataImage| <= i < |p| - |Base64Marker| ==> WordChar(p[i])
  }

  /** The length of the run of word characters starting at `from` (`\w+` is greedy). */
  function WordRun(s: string, from: nat): (n: nat)
    requires from <= |s|
    ensures from + n <= |s|
    ensures forall i :: from <= i < from + n ==> WordChar(s[i])
    ensures from + n < |s| ==> !WordChar(s[from + n])
    decreases |s| - from
  {
    if from < |s| && WordChar(s[from]) then 1 + WordRun(s, from + 1) else 0
  }

  /** Where the text after a leading `data:image/<word>;base64,` begins, if there is one. */
  function DataImagePrefixEnd(s: string): Option<nat> {
    if DataImage <= s then
      var n := WordRun(s, |DataImage|);
      if n > 0 && OccursAt(s, Base64Marker, |DataImage| + n) then Some(|DataImage| + n + |Base64Marker|)
      else None
    else None
  }

  /** `imageBase64.replace(/^data:image\/\w+;base64,/, '')`: the result is a
      suffix of the input, and whatever was removed is such a prefix. */
  function StripDataImagePrefix(s: string): (r: string)
    ensures |r| <= |s| && s[|s| - |r|..] == r
    ensures r != s ==> IsDataImagePrefix(s[..|s| - |r|])
  {
    match DataImagePrefixEnd(s)
    case None => s
    case Some(k) =>
      var n := k - |DataImage| - |Base64Marker|;
      assert s[..k][..|DataImage|] == s[..|DataImage|];
      assert s[..k][k - |Base64Marker|..] == s[|DataImage| + n..k];
      s[k..]
  }

  /** Wherever a matching prefix ends, the strip removes exactly that prefix:
      a text with such a prefix is never returned unchanged. */
  lemma StripRemovesMatchingPrefix(s: string, k: nat)
    requires k <= |s| && IsDataImagePrefix(s[..k])
    ensures StripDataImagePrefix(s) == s[k..]
  {
    var p := s[..k];
    var m := k - |Base64Marker|;
    assert s[..|DataImage|] == p[..|DataImage|] == DataImage;
    assert forall i :: |DataImage| <= i < m ==> s[i] == p[i];
    assert s[m] == p[m] == ';';
    assert !WordChar(s[m]);
    var n := WordRun(s, |DataImage|);
    assert |DataImage| + n <= m;
    assert !WordChar(s[|DataImage| + n]);
    assert |DataImage| + n == m;
    assert s[m..k] == p[m..] == Base64Marker;
    assert OccursAt(s, Base64Marker, m);
    assert DataImagePrefixEnd(s) == Some(k);
  }

  /** Stripping `data:image/<word>;base64,` from the front of a payload gives the payload back. */
  lemma StripDataImageRoundTrip(word: string, payload: string)
    requires word != [] && forall i :: 0 <= i < |word| ==> WordChar(word[i])
    ensures StripDataImagePrefix(DataImage + word + Base64Marker + payload) == payload
  {
    var s := DataImage + word + Base64Marker + payload;
    var k := |DataImage| + |word| + |Base64Marker|;
    assert s[..k] == DataImage + word + Base64Marker;
    assert forall i :: |DataImage| <= i < k - |Base64Marker| ==> s[..k][i] == word[i - |DataImage|];
    StripRemovesMatchingPrefix(s, k);
    assert s[k..] == payload;
  }

  /** `+` is not a word character, so an SVG data URL keeps its prefix. */
  lemma SvgPrefixNotStripped(payload: string)
    ensures var s := "data:image/svg+xml;base64," + payload; StripDataImagePrefix(s) == s
  {
    var s := "data:image/svg+xml;base64," + payload;
    assert s[..|DataImage|] == DataImage;
    assert s[11] == 's' && s[12] == 'v' && s[13] == 'g' && s[14] == '+';
    assert WordRun(s, 14) == 0;
    assert WordRun(s, 11) == 3;
    assert !OccursAt(s, Base64Marker, 14) by {
      assert s[14..22][0] == '+';
    }
  }

  const MethodNotAllowed := "Method not allowed"
  const KeyNotConfigured := "Anthropic API key is not configured"
  const NoImage := "No image provided"
  const TimedOut := "Request timed out"
  const CallFailed := "Error calling Anthropic API"
  const ParseFailed := "Failed to parse analysis results"
  const ServerError := "Internal server error"

  /** The debugging excerpt of a reply that does not parse: its first 500
      characters and "...". */
  function Excerpt(content: string): (r: string)
    ensures 3 <= |r| <= 503 && r[|r| - 3..] == "..."
    ensures r[..|r| - 3] <= content
    ensures |content| <= 500 ==> r == content + "..."
    ensures |content| > 500 ==> r == content[..500] + "..."
  {
    var head := JsSubstring(content, 0, 500);
    assert head == content[..|head|];
    head + "..."
  }

  /** What the handler sends upstream: the image with its data-URL prefix removed. */
  function AnthropicPayload(imageBase64: string): string {
    ServerCompressImage(StripDataImagePrefix(imageBase64))
  }

  /** The request passes the handler's checks: a POST, a configured key, and
      a request body holding a non-empty `imageBase64`. */
  predicate Accepted(httpMethod: string, apiKeyConfigured: bool, body: Option<Option<string>>) {
    httpMethod == "POST" && apiKeyConfigured && body.Some? && Truthy(body.value)
  }

  /** The handler's response once the upstream call has an outcome: the
      analysis with status 200 exactly when the reply's candidate parses, 504
      on a timeout, the upstream's own status with its error JSON, the excerpt
      when the reply does not parse, and a bare 500 otherwise. */
  function Answer<J>(up: Upstream, parse: string -> Option<J>): (r: Response<J>)
    ensures r.body.Json? <==> up.Ok? && parse(ExtractCandidate(up.content)).Some?
    ensures r.body.Json? ==> r.status == 200 && Some(r.body.value) == parse(ExtractCandidate(up.content))
    ensures up.Aborted? ==> r == Fail(504, TimedOut)
    ensures up.HttpError? && parse(up.body).Some? ==>
              r.status == up.status && r.body.Error? && r.body.error == CallFailed && r.body.details == parse(up.body)
    ensures up.Ok? && parse(ExtractCandidate(up.content)).None? ==>
              r == Response(500, Error(ParseFailed, None, Some(Excerpt(up.content))))
    ensures up.NetworkError? || up.BodyNotJson? || up.NoContent? || up.NullContent? ||
            (up.HttpError? && parse(up.body).None?) ==>
              r == Fail(500, CallFailed)
  {
    match up
    case Aborted => Fail(504, TimedOut)
    case NetworkError => Fail(500, CallFailed)
    case HttpError(status, body) =>
      (match parse(body)
       case None => Fail(500, CallFailed)
       case Some(details) => Response(status, Error(CallFailed, Some(details), None)))
    case BodyNotJson => Fail(500, CallFailed)
    case NoContent => Fail(500, CallFailed)
    case NullContent => Fail(500, CallFailed)
    case Ok(content) =>
      match parse(ExtractCandidate(content))
      case Some(analysis) => Response(200, Json(analysis))
      case None => Response(500, Error(ParseFailed, None, Some(Excerpt(content))))
  }

  /** `handler(req, res)`: `body` is the parsed request body, `None` when it
      is `null` or `undefined` (destructuring it throws and the outer catch
      answers) and otherwise its `imageBase64` field; `anthropic` is the
      upstream call on the image payload and `parse` is `JSON.parse`. */
  function Handler<J>(httpMethod: string, body: Option<Option<string>>, apiKeyConfigured: bool,
                      anthropic: string -> Upstream, parse: string -> Option<J>): (r: Response<J>)
    ensures httpMethod != "POST" ==> r == Fail(405, MethodNotAllowed)
    ensures httpMethod == "POST" && !apiKeyConfigured ==> r == Fail(500, KeyNotConfigured)
    ensures httpMethod == "POST" && apiKeyConfigured && body.None? ==> r == Fail(500, ServerError)
    ensures httpMethod == "POST" && apiKeyConfigured && body.Some? && !Truthy(body.value) ==> r == Fail(400, NoImage)
    ensures r.body.Json? <==>
              Accepted(httpMethod, apiKeyConfigured, body) &&
              anthropic(AnthropicPayload(body.value.value)).Ok? &&
              parse(ExtractCandidate(anthropic(AnthropicPayload(body.value.value)).content)).Some?
    ensures r.body.Json? ==>
              r.status == 200 &&
              Some(r.body.value) == parse(ExtractCandidate(anthropic(AnthropicPayload(body.value.value)).content))
    ensures Accepted(httpMethod, apiKeyConfigured, body) ==>
              var up := anthropic(AnthropicPayload(body.value.value));
              (up.Aborted? ==> r == Fail(504, TimedOut)) &&
              (up.HttpError? && parse(up.body).Some? ==>
                 r.status == up.status && r.body.Error? && r.body.details == parse(up.body)) &&
              (up.Ok? && parse(ExtractCandidate(up.content)).None? ==>
                 r.status == 500 && r.body.Error? && r.body.rawContent == Some(Excerpt(up.content))) &&
              ((up.NetworkError? || up.BodyNotJson? || up.NoContent? || up.NullContent? ||
                (up.HttpError? && parse(up.body).None?)) ==> r == Fail(500, CallFailed))
  {
    if httpMethod != "POST" then Fail(405, MethodNotAllowed)
    else if !apiKeyConfigured then Fail(500, KeyNotConfigured)
    else if body.None? then Fail(500, ServerError)
    else if !Truthy(body.value) then Fail(400, NoImage)
    else Answer(anthropic(AnthropicPayload(body.value.value)), parse)
  }
}
