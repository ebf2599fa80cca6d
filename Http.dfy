/** What the three analysis proxies see of the outside world: the outcome of
    their one upstream `fetch`, and the JSON response they send back. */
module Http {
  import opened Common

  /** The outcome of calling an upstream model API, after `fetch` and
      `response.json()` / `response.text()`:
      - `Aborted`: the request was cancelled by its abort controller;
      - `NetworkError`: `fetch` itself threw;
      - `HttpError`: the response was not OK; `body` is its raw text;
      - `BodyNotJson`: an OK response whose body is not JSON;
      - `NoContent`: an OK JSON response without the reply text where the
        caller looks for it (the field, or an element on the way, is absent);
      - `NullContent`: an OK JSON response whose reply text is JSON `null`,
        as OpenAI sends on a refusal;
      - `Ok`: an OK response carrying the model's reply text. */
  datatype Upstream =
    | Aborted
    | NetworkError
    | HttpError(status: nat, body: string)
    | BodyNotJson
    | NoContent
    | NullContent
    | Ok(content: string)

  /** A JSON response body: either the parsed analysis itself, or an error
      object with its `error` text, the upstream's error JSON (`details`) and
      a debugging excerpt (`rawContent`) when the handler adds them. */
  datatype Body<J> =
    | Json(value: J)
    | Error(error: string, details: Option<J>, rawContent: Option<string>)

  datatype Response<J> = Response(status: nat, body: Body<J>)

  /** JavaScript truthiness of an optional string: present and not empty. */
  predicate Truthy(s: Option<string>) {
    s.Some? && s.value != ""
  }

  /** An error response without details or excerpt. */
  function Fail<J>(status: nat, error: string): Response<J> {
    Response(status, Error(error, None, None))
  }
}
