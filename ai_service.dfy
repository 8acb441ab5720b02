/**
 * `improveText` (src/services/ai.ts): one request to the Gemini endpoint.
 * The network exchange is a parameter, `reply`; what is modelled is how the
 * function turns the key and that reply into its result or its error.
 */
module AiService {
  import opened Wrappers
  import opened Text

  /** What is returned when the reply carries no text. */
  const FallbackText := "Não foi possível melhorar o texto."

  /** Why the returned promise rejects. */
  datatype AiError =
    | MissingKey           // no key typed: thrown before any request
    | BadStatus(status: int)
    | RequestFailed        // `fetch` itself rejected
    | MalformedBody        // `response.json()` rejected
    | TypeError            // a property read on `null`, or `trim` on a value that is not a string

  /** What `data.candidates?.[0]?.content?.parts?.[0]?.text` reads. */
  datatype PartText =
    | NoText               // the path is missing, or ends in a falsy value that is not a string
    | StringText(s: string)
    | OtherTruthy          // a number, `true`, an object or an array: truthy, but without `trim`

  /** The parsed body: the JSON literal `null`, or any other JSON value. */
  datatype Body = NotJson | NullJson | Json(firstPartText: PartText)

  /** What the network gave back for the request. */
  datatype Reply = NoResponse | Response(status: int, body: Body)

  /** `response.ok`: the status is in the 2xx range. */
  predicate StatusOk(status: int) {
    200 <= status <= 299
  }

  /**
   * `text || fallback`, then `.trim()`: a non-empty string is trimmed; a missing,
   * empty or falsy text gives the fallback; a truthy value that is not a string
   * has no `trim`, so the call throws.
   */
  function Improved(text: PartText): (r: Result<string, AiError>)
    ensures r.Err? <==> text == OtherTruthy
    ensures r.Err? ==> r.error == TypeError
    ensures text.StringText? && text.s != [] ==> r == Ok(Trim(text.s))
    ensures text == NoText || text == StringText([]) ==> r == Ok(Trim(FallbackText))
    ensures r.Ok? ==> Trim(r.value) == r.value
  {
    match text
    case OtherTruthy => Err(TypeError)
    case NoText => Ok(TrimmedText(FallbackText))
    case StringText(t) => Ok(TrimmedText(OrFallback(t)))
  }

  /** `t || fallback` for a string `t`. */
  function OrFallback(t: string): string {
    if t != [] then t else FallbackText
  }

  /** `.trim()`, with the fact that trimming again changes nothing. */
  function TrimmedText(t: string): (r: string)
    ensures r == Trim(t) && Trim(r) == r
  {
    TrimOfTrimmed(Trim(t));
    Trim(t)
  }

  function ImproveText(apiKey: string, reply: Reply): (r: Result<string, AiError>)
    ensures r == Err(MissingKey) <==> apiKey == []
    ensures r.Ok? <==>
      (apiKey != [] && reply.Response? && StatusOk(reply.status)
       && reply.body.Json? && reply.body.firstPartText != OtherTruthy)
    ensures apiKey != [] && reply.Response? && !StatusOk(reply.status) ==> r == Err(BadStatus(reply.status))
    ensures apiKey != [] && reply.Response? && StatusOk(reply.status) && reply.body.Json? ==>
      r == Improved(reply.body.firstPartText)
    ensures apiKey != [] && reply.Response? && StatusOk(reply.status) && reply.body.NullJson? ==> r == Err(TypeError)
    ensures r.Ok? ==> Trim(r.value) == r.value
  {
    if apiKey == [] then Err(MissingKey)
    else match reply
      case NoResponse => Err(RequestFailed)
      case Response(status, body) =>
        if !StatusOk(status) then Err(BadStatus(status))
        else match body
          case NotJson => Err(MalformedBody)
          case NullJson => Err(TypeError)
          case Json(text) => Improved(text)
  }

  /** An answer without text, or with empty text, yields the fallback sentence. */
  lemma MissingTextFallsBack(apiKey: string, status: int, text: PartText)
    requires apiKey != [] && StatusOk(status)
    requires text == NoText || text == StringText([])
    ensures ImproveText(apiKey, Response(status, Json(text))) == Ok(FallbackText)
  {
    FallbackIsTrimmed(FallbackText);
  }

  lemma FallbackIsTrimmed(f: string)
    requires f == FallbackText
    ensures Trim(f) == f
  {
    assert f[0] == 'N' && f[|f| - 1] == '.';
    TrimOfTrimmed(f);
  }

  /** An answer whose text has no surrounding blanks is returned as it is. */
  lemma TextReturnedAsIs(apiKey: string, status: int, t: string)
    requires apiKey != [] && StatusOk(status) && t != []
    requires !IsSpace(t[0]) && !IsSpace(t[|t| - 1])
    ensures ImproveText(apiKey, Response(status, Json(StringText(t)))) == Ok(t)
  {
    TrimOfTrimmed(t);
  }

  /**
   * A padded answer comes back without its padding; an answer of white space
   * only is truthy, so it comes back as the empty string, not as the fallback.
   */
  lemma PaddedTextTrimmed(apiKey: string, status: int, t: string)
    requires apiKey != [] && StatusOk(status)
    requires t == "  Texto\n"
    ensures ImproveText(apiKey, Response(status, Json(StringText(t)))) == Ok("Texto")
  {
    assert t == "  " + "Texto" + "\n";
    TrimOfPadded("  ", "Texto", "\n");
  }

  lemma BlankTextGivesEmpty(apiKey: string, status: int, t: string)
    requires apiKey != [] && StatusOk(status)
    requires t != [] && IsBlank(t)
    ensures ImproveText(apiKey, Response(status, Json(StringText(t)))) == Ok("")
  {
  }

  /** A text that is a number, an object or `true` has no `trim`: the call rejects. */
  lemma NonStringTextRejected(apiKey: string, status: int)
    requires apiKey != [] && StatusOk(status)
    ensures ImproveText(apiKey, Response(status, Json(OtherTruthy))) == Err(TypeError)
    ensures ImproveText(apiKey, Response(status, NullJson)) == Err(TypeError)
  {
  }
}
