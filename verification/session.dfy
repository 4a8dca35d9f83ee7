/** The host-side session object: construction from arguments and
    environment, the connection check in `setup`, one `execute_code` turn
    (write the script, run it, read the result line, harvest the model calls
    made meanwhile), `load_context`, and `cleanup`. The Worker is an abstract
    function from request to reply; JSON parsing of the result line is an
    abstract `parse`. */
module Session {
  import opened Basics
  import PyStr
  import ExecScript
  import ContextEscape
  import LlmDispatch
  import PyLiteral

  /** The constructor's arguments that shape the session. */
  datatype Config = Config(
    workerUrl: Option<string>, authToken: Option<string>, sandboxId: Option<string>,
    timeout: nat, lmAddress: Option<(string, int)>, brokerUrl: Option<string>)

  /** `RLM_CF_WORKER_URL` and `RLM_CF_AUTH_TOKEN`, when set. */
  datatype Env = Env(workerUrl: Option<string>, authToken: Option<string>)

  /** Whether a polling thread is attached to the session. */
  datatype PollerState = NoPoller | Polling

  datatype Session = Session(
    workerUrl: string, authToken: string, sandboxId: string, timeout: nat,
    lmAddress: Option<(string, int)>, brokerUrl: Option<string>,
    pending: seq<LlmDispatch.Completion>, poller: PollerState, closed: bool)

  /** The two Worker endpoints the core uses: `/sandbox/exec` and
      `/sandbox/write`. */
  datatype WorkerRequest =
    | Exec(sandboxId: string, command: string)
    | Write(sandboxId: string, path: string, content: ExecScript.Script)

  /** The JSON object a Worker call returns, or `{"error": …, "success":
      false}` when the HTTP request failed. */
  datatype Reply = Reply(error: Option<string>, success: Option<bool>, stdout: Option<string>, stderr: Option<string>)

  type Worker = WorkerRequest -> Reply

  function TransportFailure(e: string): Reply {
    Reply(Some(e), Some(false), None, None)
  }

  const MissingUrl: string := "worker_url must be provided or RLM_CF_WORKER_URL environment variable must be set"
  const ConnectFailure: string := "Failed to connect to Cloudflare Worker: "
  const WriteFailure: string := "Failed to write script: "
  const ParseFailure: string := "Failed to parse execution result"
  const VersionCommand: string := "python3 --version"
  const ScriptPath: string := "/tmp/rlm_exec.py"
  const RunCommand: string := "python3 " + ScriptPath

  // ----- construction -----

  predicate IsSlash(c: char) {
    c == '/'
  }

  /** The URL the argument or the environment names, before trailing
      slashes are removed. */
  function ChosenUrl(cfg: Config, env: Env): string {
    if Truthy(cfg.workerUrl) then cfg.workerUrl.value else env.workerUrl.GetOr("")
  }

  /** The Worker base URL: the chosen URL without its trailing slashes, so
      that endpoint paths can be appended to it. */
  function WorkerUrl(cfg: Config, env: Env): (url: string)
    ensures |url| <= |ChosenUrl(cfg, env)| && url == ChosenUrl(cfg, env)[..|url|]
    ensures forall k :: |url| <= k < |ChosenUrl(cfg, env)| ==> ChosenUrl(cfg, env)[k] == '/'
    ensures |url| > 0 ==> url[|url| - 1] != '/'
  {
    PyStr.RStripBy(ChosenUrl(cfg, env), IsSlash)
  }

  /** The auth token: the argument whenever it is given, even when empty. */
  function AuthToken(cfg: Config, env: Env): string {
    if cfg.authToken.Some? then cfg.authToken.value else env.authToken.GetOr("")
  }

  /** The sandbox id: the given one when non-empty, else `rlm-` followed by
      the decimal clock reading in whole seconds. */
  function SandboxId(given: Option<string>, now: nat): (id: string)
    ensures Truthy(given) ==> id == given.value
    ensures !Truthy(given) ==>
      && |id| > 4 && id[..4] == "rlm-"
      && (forall k :: 4 <= k < |id| ==> PyStr.IsDigit(id[k]))
      && PyStr.DecimalValue(id[4..]) == now
  {
    if Truthy(given) then given.value
    else
      var digits := PyStr.NatToString(now);
      assert ("rlm-" + digits)[4..] == digits;
      "rlm-" + digits
  }

  /** `setup()`: the connection check fails only when the reply carries an
      `error` and no useful `stdout`; a poller is started exactly when both a
      broker URL and a model-handler address are configured. */
  function Setup(s: Session, worker: Worker): (r: Result<Session>)
    ensures var reply := worker(Exec(s.sandboxId, VersionCommand));
      && (r.Err? <==> reply.error.Some? && !Truthy(reply.stdout))
      && (r.Err? ==> r.error == ConnectFailure + reply.error.value)
    ensures r.Ok? ==>
      && (r.value.poller == Polling <==> Truthy(s.brokerUrl) && s.lmAddress.Some?)
      && r.value == s.(poller := r.value.poller)
  {
    var reply := worker(Exec(s.sandboxId, VersionCommand));
    if reply.error.Some? && !Truthy(reply.stdout) then
      Err(ConnectFailure + reply.error.value)
    else
      Ok(s.(poller := if Truthy(s.brokerUrl) && s.lmAddress.Some? then Polling else NoPoller))
  }

  /** The constructor up to and including `setup()`. */
  function Init(cfg: Config, env: Env, now: nat, worker: Worker): (r: Result<Session>)
    ensures WorkerUrl(cfg, env) == [] ==> r == Err(MissingUrl)
    ensures r.Ok? ==>
      && r.value.workerUrl == WorkerUrl(cfg, env) && r.value.workerUrl != []
      && r.value.authToken == AuthToken(cfg, env)
      && r.value.sandboxId == SandboxId(cfg.sandboxId, now)
      && r.value.pending == []
      && !r.value.closed
      && (r.value.poller == Polling <==> Truthy(cfg.brokerUrl) && cfg.lmAddress.Some?)
    ensures WorkerUrl(cfg, env) != [] ==>
      var reply := worker(Exec(SandboxId(cfg.sandboxId, now), VersionCommand));
      r.Err? <==> reply.error.Some? && !Truthy(reply.stdout)
  {
    var url := WorkerUrl(cfg, env);
    if url == [] then Err(MissingUrl)
    else
      Setup(Session(url, AuthToken(cfg, env), SandboxId(cfg.sandboxId, now), cfg.timeout,
                    cfg.lmAddress, cfg.brokerUrl, [], NoPoller, false), worker)
  }

  // ----- one turn -----

  /** What `json.loads` makes of the result line: not JSON at all, JSON that
      is not an object, or an object with its `stdout`, `stderr` and `locals`
      keys (each possibly absent). */
  datatype Parsed =
    | NotJson
    | NotObject
    | Object(stdout: Option<string>, stderr: Option<string>, locals: Option<map<string, string>>)

  /** A `REPLResult` without its timing. */
  datatype ReplResult = ReplResult(stdout: string, stderr: string, locals: map<string, string>,
                                   calls: seq<LlmDispatch.Completion>)

  /** `execute_code` either returns a result or raises, which it does when the
      result line is JSON but not an object (the `.get` on it fails). */
  datatype TurnOutcome = Returned(result: ReplResult) | Raised

  /** A turn's outcome, the Worker requests it made, and the session after. */
  datatype Turn = Turn(outcome: TurnOutcome, sent: seq<WorkerRequest>, session: Session)

  /** The write reply counts as a failure only when it has an `error` and a
      `success` that is present and false. */
  predicate WriteFailed(reply: Reply) {
    reply.error.Some? && !reply.success.GetOr(true)
  }

  /** The line `execute_code` parses: the last line of the stripped stdout. */
  function ResultLine(stdout: string): (line: string)
    ensures '\n' !in line
    ensures var body := PyStr.Strip(stdout);
      && |line| <= |body| && line == body[|body| - |line|..]
      && (|line| == |body| || body[|body| - |line| - 1] == '\n')
  {
    PyStr.LastLine(PyStr.Strip(stdout))
  }

  /** The completions recorded while the script ran: the poller resolves the
      bridge's requests in `items` when it is running, and nobody does
      otherwise. */
  function TurnCalls(s: Session, lm: LlmDispatch.Lm, items: seq<LlmDispatch.PendingItem>): (calls: seq<LlmDispatch.Completion>)
    ensures s.poller == Polling ==> calls == LlmDispatch.AddedAll(lm, items)
    ensures s.poller == NoPoller ==> calls == []
  {
    if s.poller == Polling then LlmDispatch.PollRound(lm, items, []).1 else []
  }

  /** `execute_code(code)`: the pending list is cleared, the script is
      written, and on a failed write the turn ends there with an empty
      result. Otherwise the script runs, the calls recorded meanwhile are
      taken and cleared, and the last stdout line is read as the result
      object; a line that is not JSON gives the raw output instead. */
  function ExecuteCode(s: Session, code: string, worker: Worker, lm: LlmDispatch.Lm,
                       items: seq<LlmDispatch.PendingItem>, parse: string -> Parsed): (t: Turn)
    ensures t.session == s.(pending := [])
    ensures |t.sent| >= 1 && t.sent[0] == Write(s.sandboxId, ScriptPath, ExecScript.BuildExecScript(code, s.brokerUrl))
    ensures |t.sent| == 1 <==> WriteFailed(worker(t.sent[0]))
    ensures |t.sent| == 1 ==>
      t.outcome == Returned(ReplResult("", WriteFailure + worker(t.sent[0]).error.value, map[], []))
    ensures |t.sent| != 1 ==> |t.sent| == 2 && t.sent[1] == Exec(s.sandboxId, RunCommand)
    ensures |t.sent| == 2 ==>
      var reply := worker(t.sent[1]);
      var out := reply.stdout.GetOr("");
      var err := reply.stderr.GetOr("");
      var calls := TurnCalls(s, lm, items);
      match parse(ResultLine(out))
      case NotJson => t.outcome == Returned(ReplResult(out, if err != "" then err else ParseFailure, map[], calls))
      case NotObject => t.outcome == Raised
      case Object(o, e, l) => t.outcome == Returned(ReplResult(o.GetOr(""), e.GetOr("") + err, l.GetOr(map[]), calls))
  {
    var s1 := s.(pending := []);
    var write := Write(s.sandboxId, ScriptPath, ExecScript.BuildExecScript(code, s.brokerUrl));
    var wr := worker(write);
    if WriteFailed(wr) then
      Turn(Returned(ReplResult("", WriteFailure + wr.error.value, map[], [])), [write], s1)
    else
      var run := Exec(s.sandboxId, RunCommand);
      var reply := worker(run);
      var recorded := if s.poller == Polling then LlmDispatch.PollRound(lm, items, s1.pending).1 else s1.pending;
      var calls := recorded;
      var s2 := s1.(pending := []);
      var out := reply.stdout.GetOr("");
      var err := reply.stderr.GetOr("");
      var outcome := match parse(ResultLine(out))
        case NotJson => Returned(ReplResult(out, if err != "" then err else ParseFailure, map[], calls))
        case NotObject => Raised
        case Object(o, e, l) => Returned(ReplResult(o.GetOr(""), e.GetOr("") + err, l.GetOr(map[]), calls));
      Turn(outcome, [write, run], s2)
  }

  /** `load_context(payload)`: a turn running the context line. */
  function LoadContext(s: Session, payload: ContextEscape.ContextPayload, worker: Worker, lm: LlmDispatch.Lm,
                       items: seq<LlmDispatch.PendingItem>, parse: string -> Parsed): (t: Turn)
    ensures |t.sent| >= 1 && t.sent[0].Write? && ExecScript.EmbeddedCode(t.sent[0].content) == Some(ContextEscape.ContextCode(payload))
    ensures payload.Text? ==>
      var code := ExecScript.EmbeddedCode(t.sent[0].content).value;
      && |code| >= |ContextEscape.TextPrefix| + 3
      && PyLiteral.Unescape(code[|ContextEscape.TextPrefix|..|code| - 3]) == Some(payload.s)
    ensures payload.Text? ==>
      (PyLiteral.SourceSafe(ExecScript.EmbeddedCode(t.sent[0].content).value) <==> PyLiteral.SourceSafe(payload.s))
    ensures payload.Text? && PyLiteral.SourceSafe(payload.s) && ContextEscape.NoTrailingQuote(payload.s) ==>
      var code := ExecScript.EmbeddedCode(t.sent[0].content).value;
      PyLiteral.LexLong(code[|ContextEscape.TextPrefix|..]) == Some((payload.s, ""))
  {
    var code := ContextEscape.ContextCode(payload);
    var t := ExecuteCode(s, code, worker, lm, items, parse);
    assert ExecScript.EmbeddedCode(t.sent[0].content) == Some(code);
    t
  }

  /** `cleanup()`: the poller is stopped and forgotten and the HTTP session
      closed; nothing else changes. */
  function Cleanup(s: Session): (s': Session)
    ensures s'.poller == NoPoller && s'.closed
    ensures s'.(poller := s.poller, closed := s.closed) == s
  {
    s.(poller := NoPoller, closed := true)
  }

  // ----- properties -----

  /** Cleaning up twice is the same as cleaning up once. */
  lemma CleanupIdempotent(s: Session)
    ensures Cleanup(Cleanup(s)) == Cleanup(s)
  {
  }

  /** A turn leaves nothing pending and reports only its own calls: what was
      pending before it has no influence on its result. */
  lemma TurnIgnoresEarlierCalls(s: Session, code: string, worker: Worker, lm: LlmDispatch.Lm,
                                items: seq<LlmDispatch.PendingItem>, parse: string -> Parsed,
                                earlier: seq<LlmDispatch.Completion>)
    ensures ExecuteCode(s, code, worker, lm, items, parse).outcome
         == ExecuteCode(s.(pending := earlier), code, worker, lm, items, parse).outcome
    ensures ExecuteCode(s, code, worker, lm, items, parse).session.pending == []
  {
  }

  /** When the Worker cannot be reached for the run, the error text is lost:
      the turn reports the fixed parse-failure message, with no locals. */
  lemma UnreachableRunReportsParseFailure(s: Session, code: string, worker: Worker, lm: LlmDispatch.Lm,
                                          items: seq<LlmDispatch.PendingItem>, parse: string -> Parsed, e: string)
    requires !WriteFailed(worker(Write(s.sandboxId, ScriptPath, ExecScript.BuildExecScript(code, s.brokerUrl))))
    requires worker(Exec(s.sandboxId, RunCommand)) == TransportFailure(e)
    requires parse("") == NotJson
    ensures ExecuteCode(s, code, worker, lm, items, parse).outcome
         == Returned(ReplResult("", ParseFailure, map[], TurnCalls(s, lm, items)))
  {
    assert PyStr.Strip("") == "";
    assert PyStr.Split("", '\n') == [""];
    assert ResultLine("") == "";
  }

  /** End to end: when the sandbox runs the written script to its final
      `print` of a record, and that record's JSON line reads back as the
      record, the turn returns the record's output and locals, the record's
      stderr followed by the process's stderr, and the calls made meanwhile. */
  lemma TurnReturnsScriptRecord<V>(s: Session, code: string, worker: Worker, lm: LlmDispatch.Lm,
                                   items: seq<LlmDispatch.PendingItem>, parse: string -> Parsed,
                                   rt: ExecScript.Runtime<V>, file: ExecScript.StateFile<V>,
                                   line: string, trailer: string)
    requires !WriteFailed(worker(Write(s.sandboxId, ScriptPath, ExecScript.BuildExecScript(code, s.brokerUrl))))
    requires ExecScript.RunCode(rt, code, file).Finished?
    requires '\n' !in line && |line| > 0 && !PyStr.IsSpace(line[0]) && !PyStr.IsSpace(line[|line| - 1])
    requires forall k :: 0 <= k < |trailer| ==> PyStr.IsSpace(trailer[k])
    requires worker(Exec(s.sandboxId, RunCommand)).stdout == Some(line + trailer)
    requires var rec := ExecScript.RunCode(rt, code, file).record;
      parse(line) == Object(Some(rec.stdout), Some(rec.stderr), Some(rec.locals))
    ensures var rec := ExecScript.RunScript(rt, ExecScript.BuildExecScript(code, s.brokerUrl), file).record;
      var err := worker(Exec(s.sandboxId, RunCommand)).stderr.GetOr("");
      ExecuteCode(s, code, worker, lm, items, parse).outcome
        == Returned(ReplResult(rec.stdout, rec.stderr + err, rec.locals, TurnCalls(s, lm, items)))
  {
    ExecScript.BuiltScriptRunsCode(rt, code, s.brokerUrl, file);
    PyStr.SingleLineIsLastLine(line, trailer);
  }

  /** A turn's calls are exactly the completions its bridge requests
      recorded, in order, when the poller runs. */
  lemma TurnCallsAreRecorded(s: Session, code: string, worker: Worker, lm: LlmDispatch.Lm,
                             items: seq<LlmDispatch.PendingItem>, parse: string -> Parsed)
    requires s.poller == Polling
    ensures var t := ExecuteCode(s, code, worker, lm, items, parse);
      t.outcome.Returned? && |t.sent| == 2 ==> t.outcome.result.calls == LlmDispatch.AddedAll(lm, items)
  {
  }
}
