# CloudflareREPL, modelled in Dafny

This project models the core of `CloudflareREPL`, the REPL environment that runs
model-written Python inside a remote Cloudflare sandbox. The host reaches the
sandbox only through a Worker's HTTP endpoints. Each turn does four things:

- it writes a self-contained Python script that carries the code as base64;
- it runs the script with `python3`;
- it reads back one JSON line holding the captured output and a rendering of the variables;
- it collects the model calls the code made through the broker.

State persists from turn to turn only through a JSON file inside the sandbox.

The model is split into modules that follow the program's structure.

| file | module | what it models |
|---|---|---|
| `basics.dfy` | `Basics` | `Option`, `Result`, bytes, and Python truthiness of an optional string |
| `pystr.dfy` | `PyStr` | `str.strip`/`rstrip`/`split`/`replace`, `isspace`, and `str(int)` |
| `utf8.dfy` | `Utf8` | `str.encode()` and strict `bytes.decode()` |
| `base64.dfy` | `Base64` | `b64encode`/`b64decode` (section 4 of RFC 4648) |
| `pyliteral.dfy` | `PyLiteral` | how Python reads a `"""…"""` or `'…'` string literal; this states what generated code means |
| `context_escape.dfy` | `ContextEscape` | `load_context`'s escaping of a string or JSON payload |
| `exec_script.dfy` | `ExecScript` | `_build_exec_script`, and what the generated script does in the sandbox |
| `broker_bridge.dfy` | `BrokerBridge` | the injected `llm_query` / `llm_query_batched` |
| `llm_dispatch.dfy` | `LlmDispatch` | `_handle_llm_request`, one round of `_poll_broker`, and the pending-call list |
| `session.dfy` | `Session` | construction, `setup`, `execute_code`, `load_context` and `cleanup` |

## Abstractions

Python values are a type parameter `V`. The runtime operations the script relies on form a `Runtime<V>` record:

- whether `json.dumps` accepts a value;
- the JSON round trip of a value;
- `repr`, `str` and the type name;
- `exec` of the code.

A `repr` or `str` that raises is `None`. An `exec` either completes with the new namespace, raises an
`Exception` (after writing its traceback), or raises something the script does not catch.

The Worker is a function from request (`Exec` or `Write`) to reply. The model client is a pair of
functions (`Lm`). Parsing the result line is a function `parse` that returns "not JSON", "JSON but not
an object", or an object with its `stdout`, `stderr` and `locals` keys.

Three behaviours of the code are worth noting:

- When the code raises an exception, no name of `_locals` is rebound: no binding made before the
  exception is copied back (`RunCode`). An in-place mutation of a loaded value is not undone, which
  the model does not express (see "Left out").
- A last stdout line that is valid JSON but not an object makes `execute_code` itself raise. The
  `.get` call fails, and `TurnOutcome.Raised` models this.
- When the Worker is unreachable during a turn, its error text is not reported. The turn reports
  "Failed to parse execution result" (`UnreachableRunReportsParseFailure`).

## Model

| member | source | states |
|---|---|---|
| Utf8.DecodeEncode | rlm/environments/cloudflare_repl.py:33 | strict UTF-8 decoding (`Utf8.Decode`, the script's `.decode()` at line 159) of the encoding of any string (`Utf8.Encode`, `code.encode()`) gives the string back |
| Utf8.DecodeFirstOfEncoded | rlm/environments/cloudflare_repl.py:33 | the strict decoder reads one encoded scalar back and consumes exactly its bytes |
| Base64.Encode | rlm/environments/cloudflare_repl.py:33 | the encoding has four characters per started group of three octets, all from the base64 alphabet |
| Base64.DecodeEncode | rlm/environments/cloudflare_repl.py:159 | `b64decode` (`Base64.Decode`, which rejects a length that is not a multiple of four, a character outside the alphabet and misplaced padding) of `b64encode(bs)` is `bs` for every octet sequence |
| Base64.CharToIndex | rlm/environments/cloudflare_repl.py:159 | a decoded alphabet character maps back to the same character |
| ExecScript.BuildExecScript | rlm/environments/cloudflare_repl.py:28-34 | the script's embedded text decodes to exactly the code; it is a plain `"…"` literal that ends at its own quote; a falsy broker URL becomes `None`, and any other URL is kept |
| ExecScript.LoadState | rlm/environments/cloudflare_repl.py:101-110 | a missing or unreadable state file loads as an empty state; a saved file loads every entry, through the JSON round trip |
| ExecScript.SaveState | rlm/environments/cloudflare_repl.py:112-126 | no underscore name is saved; a JSON-serialisable value is saved as it is; any other value is saved as its `repr`, or dropped when `repr` raises |
| ExecScript.SerializeLocals | rlm/environments/cloudflare_repl.py:128-137 | exactly the public names are reported, each as its `repr`, or as `<typename>` when `repr` raises |
| ExecScript.FinalVar | rlm/environments/cloudflare_repl.py:145-149 | the normalised name gives `str` of the value loaded at turn start, or the not-found message |
| ExecScript.FinalVarIgnoresQuotes | rlm/environments/cloudflare_repl.py:146 | a name padded with whitespace and wrapped in quotes resolves exactly like the bare name |
| ExecScript.Globals | rlm/environments/cloudflare_repl.py:151-157 | the injected namespace holds exactly the five reserved names |
| ExecScript.Merge | rlm/environments/cloudflare_repl.py:168 | the exec namespace holds every injected and every loaded name; a loaded value shadows an injected one |
| ExecScript.CopyBack | rlm/environments/cloudflare_repl.py:170-172 | a name is copied back exactly when it is neither injected nor private; copied names take their new values, and all others keep their loaded values |
| ExecScript.RunCode | rlm/environments/cloudflare_repl.py:161-186 | a run dies exactly when exec raises an uncaught non-`Exception`, and then the file is unchanged; a finished run saves a file without private names; when exec returns, the loaded state with the code's public bindings copied back is both saved and reported, next to the captured output; when exec raises, the loaded state is saved and reported |
| ExecScript.BindingReported | rlm/environments/cloudflare_repl.py:170-186 | a public name the code binds appears in the printed record's `locals`, as its `repr`, or as `<typename>` when `repr` raises |
| ExecScript.BuiltScriptRunsCode | rlm/environments/cloudflare_repl.py:159-186 | the whole script (`RunScript`) decodes its embedded text (`EmbeddedCode`: base64, then strict UTF-8) and runs exactly the code it was built from |
| ExecScript.BindingVisibleNextTurn | rlm/environments/cloudflare_repl.py:170-179 | a public name bound by a turn is loaded by the next turn, as its JSON round trip or its `repr` |
| ExecScript.DeletedNameSurvives | rlm/environments/cloudflare_repl.py:170-179 | a name the code deleted keeps its loaded value in the saved state |
| ExecScript.SaveStateIdempotent | rlm/environments/cloudflare_repl.py:112-126 | saving an already saved state changes nothing |
| ExecScript.SavedNamesAreReported | rlm/environments/cloudflare_repl.py:112-137 | every saved name is also among the reported locals |
| BrokerBridge.LlmQuery | rlm/environments/cloudflare_repl.py:59-75 | the broker's `response` when it delivered one; on every other path an `Error: …` text; without a broker, the not-configured text |
| BrokerBridge.LlmQueryBatched | rlm/environments/cloudflare_repl.py:78-94 | the broker's `responses` when it delivered them; otherwise one identical `Error: …` text per prompt |
| BrokerBridge.SingleQueryRoundTrip | rlm/environments/cloudflare_repl.py:59-75 | through host and broker, `llm_query` returns the completion text, `Error: <e>`, or `Error: No response` for an empty error |
| BrokerBridge.BatchedQueryRoundTrip | rlm/environments/cloudflare_repl.py:78-94 | through host and broker, `llm_query_batched` returns one text per model response, in order |
| LlmDispatch.HandleLlmRequest | rlm/environments/cloudflare_repl.py:360-395 | a single request gives the model's text, or its error; a batched request gives one result per response, in order; any other type gives "Unknown request type"; the pending list grows by exactly the successful completions |
| LlmDispatch.BatchLoop | rlm/environments/cloudflare_repl.py:384-393 | one result per response, in order, with only the successes recorded |
| LlmDispatch.SuccessesAreSuccesses | rlm/environments/cloudflare_repl.py:385-391 | a completion is recorded if and only if some response delivered it |
| LlmDispatch.SuccessesAppend | rlm/environments/cloudflare_repl.py:385-391 | recording distributes over concatenation of response lists |
| LlmDispatch.ReplyIgnoresPending | rlm/environments/cloudflare_repl.py:360-395 | the reply to a request does not depend on what was already pending |
| LlmDispatch.PollRound | rlm/environments/cloudflare_repl.py:339-351 | every fetched item is resolved once, in order, under its own id, with its own reply; the pending list grows by exactly what the items record |
| LlmDispatch.SingleItemExample | rlm/environments/cloudflare_repl.py:341-351 | a `2+2` single request that the model answers with `4` is resolved as `{"response": "4"}` and recorded |
| ContextEscape.AsWrittenIsEscapeTriples | rlm/environments/cloudflare_repl.py:400 | the two `replace` passes equal one left-to-right pass that escapes backslashes and each `"""` |
| ContextEscape.UnescapeRecoversAsWritten | rlm/environments/cloudflare_repl.py:400 | unescaping the source's escaped body (`EscapeStringAsWritten`, the two `replace` passes) recovers the original string |
| ContextEscape.NoUnescapedTripleAsWritten | rlm/environments/cloudflare_repl.py:400-401 | the source's escaped body never holds an unescaped `"""` |
| ContextEscape.LongLiteralOfEscapeTriples | rlm/environments/cloudflare_repl.py:400-401 | as the lexer reads it (text free of NUL and `\r`), a `"""` literal around a body escaped by the one-pass reference reads back as the string, and ends at its own delimiter, whenever the string does not end in `"` |
| ContextEscape.AsWrittenLiteralRoundTrip | rlm/environments/cloudflare_repl.py:399-401 | as the lexer reads it (text free of NUL and `\r`), the source's `"""` literal reads back as the payload, and ends at its own delimiter, whenever the payload does not end in `"` |
| ContextEscape.TrailingQuoteClosesEarly | rlm/environments/cloudflare_repl.py:400-401 | for `a"` the generated `"""` literal closes after `a` and leaves a stray `"` |
| ContextEscape.TwoTrailingQuotesAreDropped | rlm/environments/cloudflare_repl.py:400-401 | for `a""` the generated `"""` literal closes after `a` and leaves `""`, an empty literal that Python joins to it, so the line binds `a` |
| ContextEscape.TwoPassesAreOnePass | rlm/environments/cloudflare_repl.py:404 | doubling backslashes and then escaping a quote equals one pass that escapes both |
| ContextEscape.TextLiteralRoundTrip | rlm/environments/cloudflare_repl.py:399-401 | as the lexer reads it (text free of NUL and `\r`), with every `"` escaped, the `"""` literal reads back as any string and ends at its own delimiter |
| ContextEscape.JsonLiteralRoundTrip | rlm/environments/cloudflare_repl.py:403-405 | the JSON text escaped as line 404 does (`EscapeJson`), in a `'…'` literal, reads back as the JSON text and ends at its own quote |
| ContextEscape.ContextCode | rlm/environments/cloudflare_repl.py:397-405 | a string payload goes, escaped by the two `replace` passes, between `context = """` and `"""`; that body unescapes to the payload and holds no unescaped `"""`, and the line is free of NUL and `\r` exactly when the payload is; then the literal reads back as the payload if the payload does not end in `"`; a one-line JSON text is bound by a `'…'` literal whose value is that text |
| ContextEscape.CorrectedContextCode | rlm/environments/cloudflare_repl.py:399-401 | with every `"` escaped, the line is free of NUL and `\r` exactly when the payload is, and then the `"""` literal reads back as the payload whatever quotes it ends in; a JSON payload gets the same line as before |
| PyStr.Split | rlm/environments/cloudflare_repl.py:447 | the pieces are never an empty list, none holds the separator, and joining them gives the input |
| Session.ResultLine | rlm/environments/cloudflare_repl.py:447-448 | the parsed line holds no newline and is the part of the stripped stdout after its last newline, or all of it |
| PyStr.LastLine | rlm/environments/cloudflare_repl.py:447-448 | the last line holds no newline and is the suffix after the last newline |
| PyStr.StripBy | rlm/environments/cloudflare_repl.py:447 | stripping leaves the infix framed by stripped characters, which neither starts nor ends with one |
| PyStr.SingleLineIsLastLine | rlm/environments/cloudflare_repl.py:447-449 | a one-line result followed by whitespace is exactly the line that gets parsed |
| PyStr.NatToString | rlm/environments/cloudflare_repl.py:234 | `str(n)` is all digits, has no leading zero, and reads back as `n` |
| Session.WorkerUrl | rlm/environments/cloudflare_repl.py:228 | the URL is the chosen URL without its trailing slashes |
| Session.SandboxId | rlm/environments/cloudflare_repl.py:234 | a non-empty given id is kept; otherwise the id is `rlm-` followed by the clock reading in decimal |
| Session.Setup | rlm/environments/cloudflare_repl.py:286-299 | setup fails exactly when the version check has an error and no stdout; a poller runs exactly when a broker URL and a handler address are both set |
| Session.Init | rlm/environments/cloudflare_repl.py:226-254 | an empty URL is refused; otherwise the session holds the stripped URL, the token, the id and no pending calls, and setup's verdict decides |
| Session.ExecuteCode | rlm/environments/cloudflare_repl.py:409-465 | the pending list is cleared; the built script is written; a failed write ends the turn with an empty result; otherwise the script runs and the last stdout line gives the result, falling back to raw output for a non-JSON line |
| Session.LoadContext | rlm/environments/cloudflare_repl.py:397-407 | the turn writes a script that runs the context line; for a string payload the literal's body unescapes to the payload, the line is free of NUL and `\r` exactly when the payload is, and then the literal reads back as the payload if the payload does not end in `"` |
| Session.Cleanup | rlm/environments/cloudflare_repl.py:467-474 | the poller is stopped and the HTTP session closed; nothing else changes |
| Session.CleanupIdempotent | rlm/environments/cloudflare_repl.py:467-474 | cleaning up twice is the same as cleaning up once |
| Session.TurnIgnoresEarlierCalls | rlm/environments/cloudflare_repl.py:413-438 | a turn's result does not depend on calls pending before it, and nothing is pending after it |
| Session.UnreachableRunReportsParseFailure | rlm/environments/cloudflare_repl.py:442-461 | when the run request fails in transport, the turn reports the fixed parse-failure text with no locals |
| Session.TurnReturnsScriptRecord | rlm/environments/cloudflare_repl.py:442-457 | when the sandbox prints the script's record as one JSON line, the turn returns that record's output and locals, and the record's stderr followed by the process's stderr |
| Session.TurnCalls | rlm/environments/cloudflare_repl.py:435-438 | with the poller running, the calls a turn takes are the completions recorded for its bridge requests; with no poller, none |
| Session.TurnCallsAreRecorded | rlm/environments/cloudflare_repl.py:435-438 | with the poller running, a turn's calls are exactly the completions its bridge requests recorded, in order |

## Left out

- HTTP transport, request headers, timeouts, and `_read_file`: the Worker is an abstract function from request to reply.
- Threads and locks: the poller is modelled as one round over the requests the script issues during the turn. Calls recorded after the snapshot are not modelled.
- `execution_time`, `time.sleep` and the clock: the clock reading is a parameter of `Init`.
- `__del__`, `__enter__`/`__exit__`: these only call `cleanup`.
- The `dill`/`pickle` import at the top of the script: it is never used.
- `ExecScript.RunCode`: values are immutable in the model. In Python, `{**_globals, **_locals}` is a shallow copy, so the code's namespace shares the loaded objects with `_locals`. An in-place mutation (`xs.append(2)` before a `1/0`) is therefore saved and reported even when the code raises, is seen by `FINAL_VAR`, and stays on a name the code then deleted. Objects are not shared across turns, since each turn reloads from JSON.
- Python dictionary ordering: maps are unordered.
- `b64decode` without `validate=True` skips characters outside the alphabet. The script only decodes text it encoded itself, so this leniency is not modelled.
- Python refuses source text holding NUL, and reads `\r\n` and a lone `\r` as `\n` before tokenizing. The lexers `PyLiteral.LexLong` and `PyLiteral.LexShort` read text as given, so they agree with Python only on text free of both characters (`PyLiteral.SourceSafe`). A NUL in a string payload makes `exec` raise `SyntaxError`, which the script catches, so `context` is never bound; a `\r` is bound as `\n`.
- `ContextEscape.LongLiteralOfEscapeTriples`: a fact about the lexer. It matches Python's reading only for strings without NUL or `\r`.
- `ContextEscape.AsWrittenLiteralRoundTrip`: a fact about the lexer. It matches Python's reading only for payloads without NUL or `\r`, which `ContextEscape.ContextCode` states.
- `ContextEscape.TextLiteralRoundTrip`: a fact about the lexer. It matches Python's reading only for strings without NUL or `\r`, which `ContextEscape.CorrectedContextCode` states.
- `ContextEscape.CorrectedContextCode`: a payload holding NUL or `\r` is not bound unchanged even with the corrected escape. Escaping them (as `\x00` and `\r`) would need escapes the lexer does not read.
- The octal, `\x`, `\N{…}`, `\u` and `\U` escapes are not modelled.
- `Session.ExecuteCode`: a JSON result whose `stderr` is not a string is not modelled. It raises `TypeError` through the `+` at line 453. A non-string `stdout`, or a `locals` that is not an object, is not modelled either; such a value is passed into `REPLResult` without error. `Parsed` only carries strings and a string map.
- `Session.Setup`: the source tests only whether the reply has an `"error"` key, and the model does the same. `Reply.error` is `Option<string>`, so an `"error"` key whose value is `null` or not a string cannot be represented. The same holds for the write check in `Session.ExecuteCode`.
- `ExecScript.BuildExecScript`: a Python `str` may hold a lone surrogate. Then `code.encode()` raises `UnicodeEncodeError`, and that error escapes `execute_code` and `load_context`. A Dafny `char` is a Unicode scalar value, so such code cannot be represented and this path is not modelled.
- `ContextEscape.ContextCode`: the literal's round trip is stated only for payloads free of NUL and `\r`, which Python refuses or rewrites, and proved only for payloads that do not end in `"`. A payload whose trailing run of `"` has a length divisible by three also reads back, but that is not proved. The unescape and no-unescaped-`"""` facts hold for every payload.
- `Session.LoadContext`: the read-back of a string payload is stated only for payloads free of NUL and `\r` that do not end in `"`. Some payloads that end in `"` do not read back from the line as written (see Findings).
- `ContextEscape.JsonLiteralRoundTrip`: this assumes the JSON text has no raw line end. `json.dumps` always escapes line ends and NUL, but `json.dumps` itself is not modelled.
- `LlmDispatch.PollRound`: the round has no failure path. In the source the whole round sits in one `try` whose `except Exception: pass` swallows any failure. An exception in `_handle_llm_request`, or a failed `/respond` post, abandons the rest of the round after the completion was already recorded. The item then stays unresolved, and if the broker serves it again it is recorded twice, so `Session.TurnCallsAreRecorded` holds only for rounds that raise nothing.
- The constructor's optional `load_context` and `setup_code` turns are `LoadContext` and `ExecuteCode` applied to the session `Init` returns.
- The interpolation of the broker URL into a `"…"` literal in the script is not modelled. The URL is taken to need no escaping.

## Findings

| source | as written | input that shows it | evidently intended | confidence | as-written member | corrected member |
|---|---|---|---|---|---|---|
| rlm/environments/cloudflare_repl.py:400-401 | only non-overlapping `"""` runs are escaped. A payload ending in a run of `"` whose length is not a multiple of three leaves bare quotes right before the closing `"""`, and the literal closes early | the string `a"` gives `context = """a""""`, which closes after `a` and leaves a stray `"`, a syntax error; the string `a""` gives `context = """a"""""`, which silently binds `a` (`ContextEscape.TwoTrailingQuotesAreDropped`) | every string payload free of NUL and `\r` is bound unchanged to `context` | high (not executed) | ContextEscape.TrailingQuoteClosesEarly | ContextEscape.CorrectedContextCode |
