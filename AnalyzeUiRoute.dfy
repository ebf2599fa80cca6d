/** The OpenAI analysis route (`app/api/analyze-ui/route`): normalising the
    image to a data URL and the order of checks and status codes of `POST`. */
module AnalyzeUiRoute {
  import opened Common
  import opened Http

  const DataScheme := "data:"
  const JpegDataUrl := "data:image/jpeg;base64,"

  /** `formattedBase64`: a data URL is kept as it is, anything else is taken
      to be bare JPEG base64 and gets the JPEG data-URL header. */
  function NormaliseDataUrl(imageBase64: string): (r: string)
    ensures DataScheme <= r
    ensures DataScheme <= imageBase64 ==> r == imageBase64
    ensures !(DataScheme <= imageBase64) ==> r == JpegDataUrl + imageBase64
    ensures |imageBase64| <= |r| && r[|r| - |imageBase64|..] == imageBase64
  {
    if DataScheme <= imageBase64 then imageBase64 else JpegDataUrl + imageBase64
  }

  /** Normalising an already normalised image changes nothing. */
  lemma NormaliseIdempotent(imageBase64: string)
    ensures NormaliseDataUrl(NormaliseDataUrl(imageBase64)) == NormaliseDataUrl(imageBase64)
  {
    var once := NormaliseDataUrl(imageBase64);
    assert DataScheme <= once;
  }

  const KeyNotConfigured := "OpenAI API key is not configured"
  const NoImage := "No image provided"
  const CallFailed := "Error calling OpenAI API"
  const ParseFailed := "Failed to parse analysis results"
  const ServerError := "Internal server error"

  /** What `JSON.parse` reads when the reply's content is `null`: it turns
      its argument into a string first. */
  const NullText := "null"

  /** The reply text `JSON.parse` receives: the content itself, or "null"
      for a `null` content; none when the upstream gave no reply. */
  function ReplyText(up: Upstream): (r: Option<string>)
    ensures r.Some? <==> up.Ok? || up.NullContent?
    ensures up.Ok? ==> r == Some(up.content)
    ensures up.NullContent? ==> r == Some(NullText)
  {
    match up
    case Ok(content) => Some(content)
    case NullContent => Some(NullText)
    case _ => None
  }

  /** The route's response once the upstream call has answered: the analysis
      with status 200 exactly when the reply text parses as it is (a `null`
      content parses as `null` and is answered with 200), the upstream's own
      status with its error JSON, a parse failure when the reply is missing
      or does not parse, and a generic 500 otherwise. */
  function Answer<J>(up: Upstream, parse: string -> Option<J>): (r: Response<J>)
    ensures r.body.Json? <==> ReplyText(up).Some? && parse(ReplyText(up).value).Some?
    ensures r.body.Json? ==> r.status == 200 && Some(r.body.value) == parse(ReplyText(up).value)
    ensures up.NullContent? && parse(NullText).Some? ==> r == Response(200, Json(parse(NullText).value))
    ensures up.HttpError? && parse(up.body).Some? ==>
              r.status == up.status && r.body.Error? && r.body.error == CallFailed && r.body.details == parse(up.body)
    ensures (ReplyText(up).Some? && parse(ReplyText(up).value).None?) || up.NoContent? ==> r == Fail(500, ParseFailed)
    ensures up.Aborted? || up.NetworkError? || up.BodyNotJson? || (up.HttpError? && parse(up.body).None?) ==>
              r == Fail(500, ServerError)
  {
    match up
    case Aborted => Fail(500, ServerError)
    case NetworkError => Fail(500, ServerError)
    case HttpError(status, body) =>
      (match parse(body)
       case None => Fail(500, ServerError)
       case Some(details) => Response(status, Error(CallFailed, Some(details), None)))
    case BodyNotJson => Fail(500, ServerError)
    case NoContent => Fail(500, ParseFailed)
    case NullContent => ParseReply(NullText, parse)
    case Ok(content) => ParseReply(content, parse)
  }

  /** `NextResponse.json(JSON.parse(text))`, or the parse error. */
  function ParseReply<J>(text: string, parse: string -> Option<J>): (r: Response<J>)
    ensures parse(text).Some? ==> r == Response(200, Json(parse(text).value))
    ensures parse(text).None? ==> r == Fail(500, ParseFailed)
  {
    match parse(text)
    case Some(analysis) => Response(200, Json(analysis))
    case None => Fail(500, ParseFailed)
  }

  /** `POST(req)`: `body` is the request body as JSON (`None` when it is not
      JSON or is `null`; any other JSON value without the field gives `Some(None)`) holding `imageBase64` when present, `openAi` the upstream
      call on the normalised image and `parse` is `JSON.parse`. The reply text
      is parsed as it is, without fence extraction. */
  function Post<J>(apiKeyConfigured: bool, body: Option<Option<string>>,
                   openAi: string -> Upstream, parse: string -> Option<J>): (r: Response<J>)
    ensures !apiKeyConfigured ==> r == Fail(500, KeyNotConfigured)
    ensures apiKeyConfigured && body.None? ==> r == Fail(500, ServerError)
    ensures apiKeyConfigured && body.Some? && !Truthy(body.value) ==> r == Fail(400, NoImage)
    ensures r.body.Json? <==>
              apiKeyConfigured && body.Some? && Truthy(body.value) &&
              ReplyText(openAi(NormaliseDataUrl(body.value.value))).Some? &&
              parse(ReplyText(openAi(NormaliseDataUrl(body.value.value))).value).Some?
    ensures r.body.Json? ==>
              r.status == 200 && Some(r.body.value) == parse(ReplyText(openAi(NormaliseDataUrl(body.value.value))).value)
    ensures apiKeyConfigured && body.Some? && Truthy(body.value) ==>
              var up := openAi(NormaliseDataUrl(body.value.value));
              (up.HttpError? && parse(up.body).Some? ==>
                 r.status == up.status && r.body.Error? && r.body.details == parse(up.body)) &&
              (up.NullContent? && parse(NullText).Some? ==> r == Response(200, Json(parse(NullText).value))) &&
              ((ReplyText(up).Some? && parse(ReplyText(up).value).None?) || up.NoContent? ==> r == Fail(500, ParseFailed))
  {
    if !apiKeyConfigured then Fail(500, KeyNotConfigured)
    else if body.None? then Fail(500, ServerError)
    else if !Truthy(body.value) then Fail(400, NoImage)
    else Answer(openAi(NormaliseDataUrl(body.value.value)), parse)
  }
}
