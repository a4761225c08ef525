/** The Hugging Face adapter's `generateResponse`: the request runs under the backoff loop,
    reading the status from `err.response.status`, and the reply is the `generated_text` of the
    first list element or of the object itself, trimmed. */
module HuggingFaceClient {
  import opened Common
  import opened Backoff

  const Retries: int := 5
  const BaseDelay: int := 500

  /** `response.data`: absent, a list (each element's `generated_text`, `None` when absent) or
      an object with its own `generated_text`. */
  datatype Body = NoBody | List(items: seq<Option<string>>) | Object(generatedText: Option<string>)

  datatype Reply =
    | Text(text: string)
    | RequestFailed(error: Error)   // the last error of the backoff loop, rethrown
    | Invalid(message: string)      // an Error thrown with this message

  /** `data?.[0]?.generated_text || data?.generated_text || ""`; a list has no `generated_text`
      of its own and an object no element 0. */
  function GeneratedText(body: Body): (out: string)
    ensures out != [] <==> (body.List? && |body.items| > 0 && Truthy(body.items[0]))
                           || (body.Object? && Truthy(body.generatedText))
    ensures body.List? && out != [] ==> Some(out) == body.items[0]
    ensures body.Object? && out != [] ==> Some(out) == body.generatedText
  {
    match body
    case NoBody => ""
    case List(items) => if |items| > 0 && Truthy(items[0]) then items[0].value else ""
    case Object(t) => if Truthy(t) then t.value else ""
  }

  function Extract(body: Body): (r: Reply)
    ensures r.Text? <==> GeneratedText(body) != []
    ensures r.Text? ==> r.text == Trim(GeneratedText(body))
    ensures !r.Text? ==> r == Invalid("missing_text_in_huggingface_response")
  {
    var out := GeneratedText(body);
    if out == [] then Invalid("missing_text_in_huggingface_response") else Text(Trim(out))
  }

  /** Only the first list element is read: a text further down the list is never used. */
  lemma OnlyFirstElementRead(t: string)
    requires t != []
    ensures Extract(List([None, Some(t)])) == Invalid("missing_text_in_huggingface_response")
    ensures Extract(List([Some(t), None])) == Text(Trim(t))
  {
  }

  /** `fn(k)` is what the (k+1)-th request does. */
  method GenerateResponse(fn: nat -> Outcome<Body>) returns (r: Reply, calls: nat)
    ensures 1 <= calls <= Retries + 1
    ensures forall k :: 0 <= k < calls - 1 ==> fn(k).Failed? && Retryable(fn(k).error.responseStatus)
    ensures fn(calls - 1).Ok? ==> r == Extract(fn(calls - 1).value)
    ensures fn(calls - 1).Failed? ==>
              r == RequestFailed(fn(calls - 1).error)
              && (calls == Retries + 1 || !Retryable(fn(calls - 1).error.responseStatus))
  {
    var result, n, waits := RetryWithBackoff(fn, Retries, BaseDelay, ResponseStatus);
    calls := n;
    if result.Failed? {
      return RequestFailed(result.error), calls;
    }
    var out := GeneratedText(result.value);
    if out == [] {
      return Invalid("missing_text_in_huggingface_response"), calls;
    }
    return Text(Trim(out)), calls;
  }
}
