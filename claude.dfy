/** The Anthropic adapter's `generateResponse`: the request runs under the backoff loop, reading
    the status from `err.status`, and the reply is the non-empty `text` fields of the content
    blocks joined by newlines, then trimmed. */
module ClaudeClient {
  import opened Common
  import opened Backoff

  const Retries: int := 5
  const BaseDelay: int := 500

  /** The response: no usable `content` array, or the `c?.text` of each block in order. */
  datatype Body = NoContent | Content(texts: seq<Option<string>>)

  datatype Reply =
    | Text(text: string)
    | RequestFailed(error: Error)   // the last error of the backoff loop, rethrown
    | Invalid(message: string)      // an Error thrown with this message

  function TruthyQ(): Option<string> -> bool {
    (t: Option<string>) => Truthy(t)
  }

  /** The strings held by a sequence of present values, in order. */
  function ValuesOf(ts: seq<Option<string>>): (vs: seq<string>)
    ensures |vs| == |ts|
    ensures forall k :: 0 <= k < |ts| && ts[k].Some? ==> Some(vs[k]) == ts[k]
  {
    if ts == [] then [] else [if ts[0].Some? then ts[0].value else ""] + ValuesOf(ts[1..])
  }

  /** `.map(c => c?.text).filter(Boolean)`: the present, non-empty texts in order, that is, the
      values of the order-preserving `Filter` of the truthy texts. */
  function TruthyTexts(ts: seq<Option<string>>): (kept: seq<string>)
    ensures kept == ValuesOf(Filter(ts, TruthyQ()))
    ensures forall k :: 0 <= k < |kept| ==> kept[k] != [] && Some(kept[k]) in ts
    ensures kept == [] <==> forall k :: 0 <= k < |ts| ==> !Truthy(ts[k])
  {
    if ts == [] then []
    else if Truthy(ts[0]) then
      var rest := TruthyTexts(ts[1..]);
      assert Filter(ts, TruthyQ()) == [ts[0]] + Filter(ts[1..], TruthyQ());
      assert ([ts[0]] + Filter(ts[1..], TruthyQ()))[1..] == Filter(ts[1..], TruthyQ());
      [ts[0].value] + rest
    else
      var rest := TruthyTexts(ts[1..]);
      assert rest == [] <==> forall k :: 0 <= k < |ts| ==> !Truthy(ts[k]) by {
        assert forall k :: 1 <= k < |ts| ==> ts[k] == ts[1..][k - 1];
      }
      rest
  }

  /** Blocks without text do not change the joined reply. */
  lemma {:induction false} TextlessBlocksIgnored(ts: seq<Option<string>>, u: seq<Option<string>>)
    requires forall k :: 0 <= k < |u| ==> !Truthy(u[k])
    ensures TruthyTexts(ts + u) == TruthyTexts(ts)
  {
    if ts == [] {
      assert ts + u == u;
    } else {
      assert (ts + u)[1..] == ts[1..] + u;
      TextlessBlocksIgnored(ts[1..], u);
    }
  }

  function Extract(body: Body): (r: Reply)
    ensures body.NoContent? <==> r == Invalid("empty_response_from_claude")
    ensures r == Invalid("missing_text_in_claude_response") <==>
              body.Content? && forall k :: 0 <= k < |body.texts| ==> !Truthy(body.texts[k])
    ensures r.Text? <==> body.Content? && exists k :: 0 <= k < |body.texts| && Truthy(body.texts[k])
    ensures r.Text? ==> body.Content? && r.text == Trim(Join(TruthyTexts(body.texts), "\n"))
    ensures !r.RequestFailed?
  {
    match body
    case NoContent => Invalid("empty_response_from_claude")
    case Content(ts) =>
      var kept := TruthyTexts(ts);
      var out := Join(kept, "\n");
      if out == [] then
        assert kept == [] by {
          if kept != [] { JoinNonEmpty(kept, "\n", 0); }
        }
        Invalid("missing_text_in_claude_response")
      else Text(Trim(out))
  }

  /** `fn(k)` is what the (k+1)-th request does. */
  method GenerateResponse(fn: nat -> Outcome<Body>) returns (r: Reply, calls: nat)
    ensures 1 <= calls <= Retries + 1
    ensures forall k :: 0 <= k < calls - 1 ==> fn(k).Failed? && Retryable(fn(k).error.status)
    ensures fn(calls - 1).Ok? ==> r == Extract(fn(calls - 1).value)
    ensures fn(calls - 1).Failed? ==>
              r == RequestFailed(fn(calls - 1).error)
              && (calls == Retries + 1 || !Retryable(fn(calls - 1).error.status))
  {
    var result, n, waits := RetryWithBackoff(fn, Retries, BaseDelay, ErrStatus);
    calls := n;
    if result.Failed? {
      return RequestFailed(result.error), calls;
    }
    var body := result.value;
    if body.NoContent? {
      return Invalid("empty_response_from_claude"), calls;
    }
    var out := Join(TruthyTexts(body.texts), "\n");
    if out == [] {
      return Invalid("missing_text_in_claude_response"), calls;
    }
    return Text(Trim(out)), calls;
  }
}
