/** The browser-side OpenAI client (`services/aiService`): taking the base64
    part out of a data URL, pulling the JSON text out of the model's reply and
    cleaning fence markers from it, and the ways `analyzeUIDesign` fails. */
module AiService {
  import opened Common
  import opened Text
  import opened Http
  import opened JsonExtraction

  /** `s.split(',')[1]`: the text between the first comma and the next one
      (or the end of `s`); `undefined` when `s` has no comma. */
  function SplitSecond(s: string): (r: Option<string>)
    ensures r.None? <==> ',' !in s
    ensures r.Some? ==> ',' !in r.value && IsInfix(r.value, s)
  {
    match FindChar(s, ',', 0)
    case None => None
    case Some(i) =>
      match FindChar(s, ',', i + 1)
      case None =>
        assert s[i + 1..|s|] == s[i + 1..];
        Some(s[i + 1..])
      case Some(j) => Some(s[i + 1..j])
  }

  /** The base64 part of `<header>,<payload>` is the payload, whatever follows
      it from the next comma on. */
  lemma SplitSecondOfDataUrl(header: string, payload: string, rest: string)
    requires ',' !in header && ',' !in payload
    requires rest == [] || rest[0] == ','
    ensures SplitSecond(header + "," + payload + rest) == Some(payload)
  {
    var s := header + "," + payload + rest;
    var i := |header|;
    assert s[i] == ',';
    assert forall k :: 0 <= k < i ==> s[k] == header[k];
    assert FindChar(s, ',', 0) == Some(i);
    assert forall k :: i + 1 <= k < i + 1 + |payload| ==> s[k] == payload[k - i - 1];
    if rest == [] {
      assert s[i + 1..] == payload;
    } else {
      assert s[i + 1 + |payload|] == ',';
      assert FindChar(s, ',', i + 1) == Some(i + 1 + |payload|);
      assert s[i + 1..i + 1 + |payload|] == payload;
    }
  }

  /** `jsonStr` after extraction and cleanup: the candidate, with
      fence markers deleted when it starts with ```. The text handed to
      `JSON.parse` never starts with ```, and once cleaned has none at all. */
  function ExtractJsonString(content: string): (r: string)
    ensures !(Fence <= r)
    ensures !(Fence <= ExtractCandidate(content)) ==> r == ExtractCandidate(content)
    ensures Fence <= ExtractCandidate(content) ==> forall k: nat :: !OccursAt(r, Fence, k)
    ensures Fence <= ExtractCandidate(content) ==> r == StripFenceMarkers(ExtractCandidate(content))
  {
    var candidate := ExtractCandidate(content);
    if Fence <= candidate then
      StripRemovesEveryFence(candidate);
      var cleaned := StripFenceMarkers(candidate);
      assert !OccursAt(cleaned, Fence, 0);
      cleaned
    else candidate
  }

  /** A reply holding a ```json fence around a body, after text without
      backticks, yields the body, as long
      as the body itself neither holds "\n```" nor starts with ```. */
  lemma ExtractJsonStringFromFence(pre: string, body: string, rest: string)
    requires '`' !in pre
    requires body != "" && !(Fence <= body)
    requires forall k: nat :: !OccursAt(body, FenceClose, k)
    ensures ExtractJsonString(pre + JsonFenceOpen + body + FenceClose + rest) == body
  {
    ExtractFromJsonFence(pre, body, rest);
  }

  /** An empty ```json fence: the whole match is taken, and the cleanup leaves
      only the newline between the two markers. */
  lemma ExtractJsonStringFromEmptyFence(rest: string)
    ensures ExtractJsonString(JsonFenceOpen + FenceClose + rest) == "\n"
  {
    var candidate := JsonFenceOpen + FenceClose;
    ExtractFromEmptyJsonFence(rest);
    assert candidate[..3] == Fence;
    CleanEmptyFence();
  }

  /** The cleanup of an empty ```json fence leaves the newline between the markers. */
  lemma CleanEmptyFence()
    ensures StripFenceMarkers(JsonFenceOpen + FenceClose) == "\n"
  {
    StripDropsJsonFenceOpen(FenceClose);
    assert FenceClose == "\n" + Fence && Fence == Fence + [];
    StripKeepsTicklessPrefix("\n", Fence);
    StripDropsFence([]);
  }

  /** How `analyzeUIDesign` can end without a result. */
  datatype AnalysisError =
    | ImageUnreadable          // fetching or reading the design's image failed
    | ApiKeyMissing            // no OpenAI key is configured
    | RequestFailed            // `fetch` threw
    | ApiError(message: string) // a non-OK response: "API error: <status> - <body>"
    | MalformedReply           // the body is not JSON or lacks the message content
    | ParseFailed              // `JSON.parse` rejected the extracted text

  const JpegDataUrl := "data:image/jpeg;base64,"
  const ApiErrorPrefix := "API error: "

  /** The image URL sent upstream; a data URL without a comma gives the text "undefined". */
  function OpenAiImageUrl(base64: Option<string>): string {
    JpegDataUrl + (if base64.Some? then base64.value else "undefined")
  }

  /** The error message of a non-OK response: it carries the status in decimal. */
  function ApiErrorMessage(status: nat, text: string): (m: string)
    ensures ApiErrorPrefix <= m && OccursAt(m, Decimal(status), |ApiErrorPrefix|)
    ensures ParseDecimal(m[|ApiErrorPrefix|..|ApiErrorPrefix| + |Decimal(status)|]) == status
  {
    var m := ApiErrorPrefix + Decimal(status) + " - " + text;
    assert m[|ApiErrorPrefix|..|ApiErrorPrefix| + |Decimal(status)|] == Decimal(status);
    DecimalRoundTrip(status);
    m
  }

  /** The outcome once the upstream call has answered: the analysis exactly
      when the cleaned reply parses; otherwise which of the failures it was. */
  function Outcome<J>(up: Upstream, parse: string -> Option<J>): (r: Result<J, AnalysisError>)
    ensures r.Success? <==> up.Ok? && parse(ExtractJsonString(up.content)).Some?
    ensures r.Success? ==> Some(r.value) == parse(ExtractJsonString(up.content))
    ensures up.Aborted? || up.NetworkError? ==> r == Failure(RequestFailed)
    ensures up.BodyNotJson? || up.NoContent? || up.NullContent? ==> r == Failure(MalformedReply)
    ensures up.HttpError? ==>
              r.Failure? && r.error.ApiError? && ApiErrorPrefix <= r.error.message &&
              OccursAt(r.error.message, Decimal(up.status), |ApiErrorPrefix|)
    ensures up.Ok? && parse(ExtractJsonString(up.content)).None? ==> r == Failure(ParseFailed)
  {
    match up
    case Aborted => Failure(RequestFailed)
    case NetworkError => Failure(RequestFailed)
    case HttpError(status, text) => Failure(ApiError(ApiErrorMessage(status, text)))
    case BodyNotJson => Failure(MalformedReply)
    case NoContent => Failure(MalformedReply)
    case NullContent => Failure(MalformedReply)
    case Ok(content) =>
      match parse(ExtractJsonString(content))
      case None => Failure(ParseFailed)
      case Some(analysis) => Success(analysis)
  }

  /** `analyzeUIDesign(design)`: `imageDataUrl` is what the file reader made
      of the design's image (`None` when fetching or reading it failed),
      `apiKey` the configured key, `openAi` the upstream call on the image URL
      and `parse` is `JSON.parse`. The image is read before the key is checked. */
  function AnalyzeUIDesign<J>(imageDataUrl: Option<string>, apiKey: Option<string>,
                              openAi: string -> Upstream, parse: string -> Option<J>): (r: Result<J, AnalysisError>)
    ensures imageDataUrl.None? ==> r == Failure(ImageUnreadable)
    ensures imageDataUrl.Some? && !Truthy(apiKey) ==> r == Failure(ApiKeyMissing)
    ensures r.Success? <==>
              imageDataUrl.Some? && Truthy(apiKey) &&
              openAi(OpenAiImageUrl(SplitSecond(imageDataUrl.value))).Ok? &&
              parse(ExtractJsonString(openAi(OpenAiImageUrl(SplitSecond(imageDataUrl.value))).content)).Some?
    ensures r.Success? ==>
              Some(r.value) == parse(ExtractJsonString(openAi(OpenAiImageUrl(SplitSecond(imageDataUrl.value))).content))
    ensures imageDataUrl.Some? && Truthy(apiKey) ==>
              var up := openAi(OpenAiImageUrl(SplitSecond(imageDataUrl.value)));
              (up.HttpError? ==> r.Failure? && r.error.ApiError? &&
                                 OccursAt(r.error.message, Decimal(up.status), |ApiErrorPrefix|)) &&
              (up.Ok? && parse(ExtractJsonString(up.content)).None? ==> r == Failure(ParseFailed))
  {
    if imageDataUrl.None? then Failure(ImageUnreadable)
    else
      var base64 := SplitSecond(imageDataUrl.value);
      if !Truthy(apiKey) then Failure(ApiKeyMissing)
      else Outcome(openAi(OpenAiImageUrl(base64)), parse)
  }
}
