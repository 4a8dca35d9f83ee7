/** The two capabilities the script injects, `llm_query` and
    `llm_query_batched`, which post to the broker's `/enqueue` and block for
    the host's answer. The HTTP call is an abstract `BrokerOutcome`. */
module BrokerBridge {
  import opened Basics
  import LlmDispatch

  /** What the `/enqueue` call gave: it raised (transport failure, timeout,
      a body that is not a JSON object), or it returned a JSON object whose
      `error` (only when truthy), `response` and `responses` keys are shown. */
  datatype BrokerOutcome =
    | Failed(reason: string)
    | Answered(error: Option<string>, response: Option<string>, responses: Option<seq<string>>)

  const NotConfigured: string := "Error: LLM broker not configured"
  const NoResponse: string := "Error: No response"

  /** The strings the capabilities return instead of raising. */
  predicate IsErrorText(s: string) {
    "Error: " <= s
  }

  /** The JSON bodies the capabilities post. */
  function SingleRequest(prompt: string, model: Option<string>): LlmDispatch.LmRequest {
    LlmDispatch.LmRequest(Some("single"), Some(prompt), None, model)
  }

  function BatchedRequest(prompts: seq<string>, model: Option<string>): LlmDispatch.LmRequest {
    LlmDispatch.LmRequest(Some("batched"), None, Some(prompts), model)
  }

  /** The broker answered with a usable `response`. */
  predicate Delivered(brokerUrl: Option<string>, outcome: BrokerOutcome) {
    brokerUrl.Some? && outcome.Answered? && outcome.error.None? && outcome.response.Some?
  }

  /** The broker answered with a usable `responses` list. */
  predicate DeliveredBatch(brokerUrl: Option<string>, outcome: BrokerOutcome) {
    brokerUrl.Some? && outcome.Answered? && outcome.error.None? && outcome.responses.Some?
  }

  /** `llm_query(prompt, model)` given the script's `BROKER_URL`: the broker's
      `response` when it delivered one, an `Error: …` text on every other
      path. */
  function LlmQuery(brokerUrl: Option<string>, outcome: BrokerOutcome): (r: string)
    ensures Delivered(brokerUrl, outcome) ==> r == outcome.response.value
    ensures !Delivered(brokerUrl, outcome) ==> IsErrorText(r)
    ensures brokerUrl.None? ==> r == NotConfigured
  {
    if brokerUrl.None? then NotConfigured
    else
      match outcome
      case Failed(e) => "Error: LM query failed - " + e
      case Answered(err, response, _) =>
        if err.Some? then "Error: " + err.value
        else response.GetOr(NoResponse)
  }

  /** `llm_query_batched(prompts, model)`: the broker's `responses` list when
      it delivered one, and otherwise one identical `Error: …` text per
      prompt. */
  function LlmQueryBatched(brokerUrl: Option<string>, outcome: BrokerOutcome, prompts: seq<string>): (r: seq<string>)
    ensures DeliveredBatch(brokerUrl, outcome) ==> r == outcome.responses.value
    ensures !DeliveredBatch(brokerUrl, outcome) ==>
      && |r| == |prompts|
      && forall i :: 0 <= i < |r| ==> IsErrorText(r[i]) && r[i] == r[0]
    ensures brokerUrl.None? ==> forall i :: 0 <= i < |r| ==> r[i] == NotConfigured
  {
    if brokerUrl.None? then seq(|prompts|, _ => NotConfigured)
    else
      match outcome
      case Failed(e) => seq(|prompts|, _ => "Error: LM query failed - " + e)
      case Answered(err, _, responses) =>
        if err.Some? then seq(|prompts|, _ => "Error: " + err.value)
        else responses.GetOr(seq(|prompts|, _ => NoResponse))
  }

  /** The broker returns the host's reply object to the blocked caller as it
      is; an empty error string is falsy. */
  function Relay(reply: LlmDispatch.HostReply): BrokerOutcome {
    match reply
    case ErrorReply(e) => Answered(if e != "" then Some(e) else None, None, None)
    case SingleReply(r) => Answered(None, Some(r), None)
    case BatchReply(rs) => Answered(None, None, Some(rs))
  }

  /** End to end for one prompt: the caller gets the completion's text, or
      the model's error. */
  lemma SingleQueryRoundTrip(lm: LlmDispatch.Lm, url: string, prompt: string, model: Option<string>)
    ensures var reply := LlmDispatch.HandleLlmRequest(lm, SingleRequest(prompt, model), []).0;
      var r := LlmQuery(Some(url), Relay(reply));
      match lm.single(Some(prompt), model)
      case LmSuccess(c) => r == c.response
      case LmFailure(e) => r == (if e != "" then "Error: " + e else NoResponse)
  {
  }

  /** End to end for a batch: the caller gets one text per model response,
      in the model's order, each the completion's text or `Error: …`. */
  lemma BatchedQueryRoundTrip(lm: LlmDispatch.Lm, url: string, prompts: seq<string>, model: Option<string>)
    ensures var rs := lm.batched(prompts, model);
      var reply := LlmDispatch.HandleLlmRequest(lm, BatchedRequest(prompts, model), []).0;
      var r := LlmQueryBatched(Some(url), Relay(reply), prompts);
      && |r| == |rs|
      && forall i :: 0 <= i < |rs| ==> r[i] == LlmDispatch.ResultText(rs[i])
  {
  }
}
