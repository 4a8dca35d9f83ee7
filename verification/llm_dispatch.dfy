/** The host side of the broker: `_handle_llm_request`, which turns one
    pending broker item into a model call and a reply, and records each
    successful completion in the session's pending-call list; and one round
    of `_poll_broker`, which does that for each pending item in turn. The
    model client is an abstract `Lm`; HTTP, threads and timing are not
    modelled. */
module LlmDispatch {
  import opened Basics

  /** An `RLMChatCompletion`; the host reads only its response text. */
  datatype Completion = Completion(prompt: string, response: string)

  /** What `send_lm_request` returns for one prompt. */
  datatype LmResponse = LmSuccess(completion: Completion) | LmFailure(error: string)

  /** The model-call collaborator: `send_lm_request(address, LMRequest(prompt,
      model))` and `send_lm_request_batched(address, prompts, model)`. */
  datatype Lm = Lm(
    single: (Option<string>, Option<string>) -> LmResponse,
    batched: (seq<string>, Option<string>) -> seq<LmResponse>)

  /** The `req_data` dictionary: the `type`, `prompt`, `prompts` and `model`
      keys, each possibly absent. */
  datatype LmRequest = LmRequest(kind: Option<string>, prompt: Option<string>,
                                 prompts: Option<seq<string>>, model: Option<string>)

  /** The dictionary `_handle_llm_request` returns: `{"error": …}`,
      `{"response": …}` or `{"responses": […]}`. */
  datatype HostReply = ErrorReply(error: string) | SingleReply(response: string) | BatchReply(responses: seq<string>)

  const UnknownType: string := "Unknown request type"

  /** The text a batched reply holds for one model response. */
  function ResultText(r: LmResponse): string {
    match r
    case LmSuccess(c) => c.response
    case LmFailure(e) => "Error: " + e
  }

  /** The completions of the successful responses, in order. */
  function Successes(rs: seq<LmResponse>): (cs: seq<Completion>)
    ensures |cs| <= |rs|
  {
    if |rs| == 0 then []
    else (if rs[0].LmSuccess? then [rs[0].completion] else []) + Successes(rs[1..])
  }

  /** A completion is recorded exactly when some response delivered it. */
  lemma {:induction false} SuccessesAreSuccesses(rs: seq<LmResponse>, c: Completion)
    ensures c in Successes(rs) <==> LmSuccess(c) in rs
    decreases |rs|
  {
    if |rs| > 0 {
      SuccessesAreSuccesses(rs[1..], c);
      assert rs == [rs[0]] + rs[1..];
    }
  }

  lemma {:induction false} SuccessesAppend(a: seq<LmResponse>, b: seq<LmResponse>)
    ensures Successes(a + b) == Successes(a) + Successes(b)
    decreases |a|
  {
    if |a| == 0 {
      assert a + b == b;
    } else {
      var first := if a[0].LmSuccess? then [a[0].completion] else [];
      assert (a + b)[0] == a[0];
      assert (a + b)[1..] == a[1..] + b;
      assert Successes(a + b) == first + Successes(a[1..] + b);
      SuccessesAppend(a[1..], b);
      assert Successes(a) == first + Successes(a[1..]);
    }
  }

  /** The `for resp in responses` loop of the batched branch, from the
      pending list before it: one result per response, in order, and only
      the successes appended. */
  function BatchLoop(rs: seq<LmResponse>, pending: seq<Completion>): (out: (seq<string>, seq<Completion>))
    ensures |out.0| == |rs|
    ensures forall i :: 0 <= i < |rs| ==> out.0[i] == ResultText(rs[i])
    ensures out.1 == pending + Successes(rs)
    decreases |rs|
  {
    if |rs| == 0 then ([], pending)
    else
      var first := if rs[0].LmSuccess? then [rs[0].completion] else [];
      var rest := BatchLoop(rs[1..], pending + first);
      assert pending + first + Successes(rs[1..]) == pending + (first + Successes(rs[1..]));
      ([ResultText(rs[0])] + rest.0, rest.1)
  }

  /** The completions a request records: the completion of a successful
      single call, the successes of a batched call, nothing otherwise. */
  function Added(lm: Lm, req: LmRequest): seq<Completion> {
    if req.kind == Some("single") then
      match lm.single(req.prompt, req.model)
      case LmSuccess(c) => [c]
      case LmFailure(_) => []
    else if req.kind == Some("batched") then
      Successes(lm.batched(req.prompts.GetOr([]), req.model))
    else []
  }

  /** `_handle_llm_request(req_data)` with the pending list before and after. */
  function HandleLlmRequest(lm: Lm, req: LmRequest, pending: seq<Completion>): (out: (HostReply, seq<Completion>))
    ensures out.1 == pending + Added(lm, req)
    ensures req.kind == Some("single") ==>
      match lm.single(req.prompt, req.model)
      case LmFailure(e) => out.0 == ErrorReply(e)
      case LmSuccess(c) => out.0 == SingleReply(c.response)
    ensures req.kind == Some("batched") ==>
      var rs := lm.batched(req.prompts.GetOr([]), req.model);
      && out.0.BatchReply?
      && |out.0.responses| == |rs|
      && forall i :: 0 <= i < |rs| ==> out.0.responses[i] == ResultText(rs[i])
    ensures req.kind != Some("single") && req.kind != Some("batched") ==>
      out.0 == ErrorReply(UnknownType)
  {
    if req.kind == Some("single") then
      match lm.single(req.prompt, req.model)
      case LmFailure(e) => (ErrorReply(e), pending)
      case LmSuccess(c) => (SingleReply(c.response), pending + [c])
    else if req.kind == Some("batched") then
      var rs := lm.batched(req.prompts.GetOr([]), req.model);
      var (results, pending') := BatchLoop(rs, pending);
      (BatchReply(results), pending')
    else
      (ErrorReply(UnknownType), pending)
  }

  /** The reply does not depend on what was pending. */
  lemma ReplyIgnoresPending(lm: Lm, req: LmRequest, p: seq<Completion>, q: seq<Completion>)
    ensures HandleLlmRequest(lm, req, p).0 == HandleLlmRequest(lm, req, q).0
  {
    if req.kind == Some("batched") {
      var a := HandleLlmRequest(lm, req, p).0.responses;
      var b := HandleLlmRequest(lm, req, q).0.responses;
      assert |a| == |b|;
      assert forall i :: 0 <= i < |a| ==> a[i] == b[i];
    }
  }

  /** One item of the broker's `/pending` list. */
  datatype PendingItem = PendingItem(id: string, request: LmRequest)

  /** The body posted to the broker's `/respond`. */
  datatype Resolution = Resolution(id: string, response: HostReply)

  /** The completions a sequence of items records, in order. */
  function AddedAll(lm: Lm, items: seq<PendingItem>): seq<Completion> {
    if |items| == 0 then [] else Added(lm, items[0].request) + AddedAll(lm, items[1..])
  }

  /** One pass of the polling loop over the fetched items: each item is
      resolved once, in order, with its own id and reply, and the pending
      list grows by exactly what the items record. */
  function PollRound(lm: Lm, items: seq<PendingItem>, pending: seq<Completion>): (out: (seq<Resolution>, seq<Completion>))
    ensures |out.0| == |items|
    ensures forall i :: 0 <= i < |items| ==>
      out.0[i] == Resolution(items[i].id, HandleLlmRequest(lm, items[i].request, []).0)
    ensures out.1 == pending + AddedAll(lm, items)
    decreases |items|
  {
    if |items| == 0 then ([], pending)
    else
      var (reply, pending1) := HandleLlmRequest(lm, items[0].request, pending);
      ReplyIgnoresPending(lm, items[0].request, pending, []);
      var (rest, pending2) := PollRound(lm, items[1..], pending1);
      assert forall i :: 1 <= i < |items| ==> items[1..][i - 1] == items[i];
      ([Resolution(items[0].id, reply)] + rest, pending2)
  }

  /** The worked example: item `1` asks a single `2+2` of model `m`, the model
      answers `4`, and the broker is told `{id: "1", response: {response: "4"}}`. */
  lemma SingleItemExample(lm: Lm, pending: seq<Completion>, c: Completion)
    requires lm.single(Some("2+2"), Some("m")) == LmSuccess(c) && c.response == "4"
    ensures var items := [PendingItem("1", LmRequest(Some("single"), Some("2+2"), None, Some("m")))];
      PollRound(lm, items, pending) == ([Resolution("1", SingleReply("4"))], pending + [c])
  {
    var items := [PendingItem("1", LmRequest(Some("single"), Some("2+2"), None, Some("m")))];
    assert Added(lm, items[0].request) == [c];
    assert AddedAll(lm, items[1..]) == [];
    assert AddedAll(lm, items) == [c];
    var req := items[0].request;
    assert HandleLlmRequest(lm, req, []).0 == SingleReply("4");
    var out := PollRound(lm, items, pending);
    assert out.0[0] == Resolution("1", SingleReply("4"));
    assert out.0 == [Resolution("1", SingleReply("4"))];
  }
}
