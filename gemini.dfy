/** The Gemini adapter's `generateResponse`: the request runs under the backoff loop, reading
    the status from `err.response.status`, and the reply text is taken from the first candidate
    through a chain of fallbacks and trimmed. */
module GeminiClient {
  import opened Common
  import opened Backoff

  const Retries: int := 5
  const BaseDelay: int := 500

  /** One `content.parts` entry; `text` absent is `None`. */
  datatype Part = Part(text: Option<string>)

  /** A candidate: `content.parts` (`None` when there is no parts array) and `output_text`. */
  datatype Candidate = Candidate(parts: Option<seq<Part>>, outputText: Option<string>)

  /** `response.data`: absent, or present with `candidates` (`None` when not an array). */
  datatype Body = NoData | Data(candidates: Option<seq<Candidate>>)

  datatype Reply =
    | Text(text: string)
    | RequestFailed(error: Error)   // the last error of the backoff loop, rethrown
    | Invalid(message: string)      // an Error thrown with this message

  /** `p.text` as `Array.prototype.join` renders it: an absent text becomes the empty string. */
  function TextOrEmpty(p: Part): string {
    if p.text.Some? then p.text.value else ""
  }

  function PartTexts(ps: seq<Part>): (ts: seq<string>)
    ensures |ts| == |ps|
    ensures forall k :: 0 <= k < |ps| ==> ts[k] == TextOrEmpty(ps[k])
  {
    if ps == [] then [] else [TextOrEmpty(ps[0])] + PartTexts(ps[1..])
  }

  predicate FirstPartText(c: Candidate) {
    c.parts.Some? && |c.parts.value| > 0 && Truthy(c.parts.value[0].text)
  }

  /** `parts[0].text || output_text || parts.map(p => p.text).join("\n") || ""`. */
  function ReplyText(c: Candidate): string {
    if FirstPartText(c) then c.parts.value[0].text.value
    else if Truthy(c.outputText) then c.outputText.value
    else if c.parts.Some? then Join(PartTexts(c.parts.value), "\n")
    else ""
  }

  /** The fallback chain yields a text exactly when the first part has text, or there is an
      `output_text`, or there are at least two parts: the joined text then holds a newline even
      when no part has any text. */
  lemma ReplyTextEmptyIff(c: Candidate)
    ensures ReplyText(c) == [] <==>
              !FirstPartText(c) && !Truthy(c.outputText) && (c.parts.None? || |c.parts.value| <= 1)
  {
    if !FirstPartText(c) && !Truthy(c.outputText) && c.parts.Some? {
      var ts := PartTexts(c.parts.value);
      if |ts| >= 2 {
        assert Join(ts, "\n") == ts[0] + "\n" + Join(ts[1..], "\n");
      } else if |ts| == 1 {
        assert Join(ts, "\n") == ts[0];
      }
    }
  }

  /** What `generateResponse` makes of one response body. */
  function Extract(body: Body): (r: Reply)
    ensures body.NoData? <==> r == Invalid("empty_response_from_gemini")
    ensures r == Invalid("invalid_gemini_response") <==>
              body.Data? && (body.candidates.None? || body.candidates.value == [])
    ensures r == Invalid("missing_text_in_gemini_response") <==>
              body.Data? && body.candidates.Some? && body.candidates.value != []
              && ReplyText(body.candidates.value[0]) == []
    ensures r.Text? ==> body.Data? && body.candidates.Some? && body.candidates.value != []
                        && r.text == Trim(ReplyText(body.candidates.value[0]))
    ensures !r.RequestFailed?
  {
    match body
    case NoData => Invalid("empty_response_from_gemini")
    case Data(cs) =>
      if cs.None? || cs.value == [] then Invalid("invalid_gemini_response")
      else
        var out := ReplyText(cs.value[0]);
        if out == [] then Invalid("missing_text_in_gemini_response") else Text(Trim(out))
  }

  /** `fn(k)` is what the (k+1)-th request does. */
  method GenerateResponse(fn: nat -> Outcome<Body>) returns (r: Reply, calls: nat)
    ensures 1 <= calls <= Retries + 1
    ensures forall k :: 0 <= k < calls - 1 ==> fn(k).Failed? && Retryable(fn(k).error.responseStatus)
    ensures fn(calls - 1).Ok? ==> r == Extract(fn(calls - 1).value)
    ensures fn(calls - 1).Failed? ==>
              r == RequestFailed(fn(calls - 1).error)
              && (calls == Retries + 1 || !Retryable(fn(calls - 1).error.responseStatus))
  {
    var result, n, waits := RetryWithBackoff(fn, Retries, BaseDelay, ResponseStatus);
    calls := n;
    if result.Failed? {
      return RequestFailed(result.error), calls;
    }
    var body := result.value;
    if body.NoData? {
      return Invalid("empty_response_from_gemini"), calls;
    }
    var candidates := body.candidates;
    if candidates.None? || |candidates.value| == 0 {
      return Invalid("invalid_gemini_response"), calls;
    }
    var out := ReplyText(candidates.value[0]);
    if out == [] {
      return Invalid("missing_text_in_gemini_response"), calls;
    }
    return Text(Trim(out)), calls;
  }

  /** Two parts without text pass the emptiness check as "\n" and come back as an empty reply
      once trimmed; the convert route then refuses it as an empty reply. */
  lemma TextlessPartsGiveEmptyReply()
    ensures Extract(Data(Some([Candidate(Some([Part(None), Part(None)]), None)]))) == Text("")
  {
    var c := Candidate(Some([Part(None), Part(None)]), None);
    var ts := PartTexts(c.parts.value);
    assert ts == ["", ""];
    assert Join(ts, "\n") == "" + "\n" + Join(ts[1..], "\n");
    assert ts[1..] == [""];
    assert Join(ts, "\n") == "\n";
    assert SkipFrom("\n", 0) == 1;
  }
}
