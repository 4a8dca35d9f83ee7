/** The script `_build_exec_script` generates and what one run of it does
    inside the sandbox: load the persisted state, build the namespace, run
    the user's code, copy new bindings back, persist and report. The
    script's text layout is not modelled; its behaviour is. Python itself
    (`exec`, `repr`, `str`, `json`) is a `Runtime` of uninterpreted
    operations over an abstract value type `V`. */
module ExecScript {
  import opened Basics
  import PyStr
  import Base64
  import Utf8
  import PyLiteral

  // ----- building the script -----

  /** The inputs the generated script is built from: the base64 text of the
      user's code and the broker URL baked into `BROKER_URL` (`None` when the
      host has none). */
  datatype Script = Script(codeB64: string, brokerUrl: Option<string>)

  /** What the script's `base64.b64decode(…).decode()` line yields. */
  function EmbeddedCode(s: Script): Option<string> {
    match Base64.Decode(s.codeB64)
    case None => None
    case Some(bytes) => Utf8.Decode(bytes)
  }

  /** `_build_exec_script(code, broker_url)`. For code made of Unicode scalar
      values (a Dafny `char` is never a lone surrogate) the code comes back
      exactly from the embedded text, whatever quotes, backslashes, newlines
      or non-ASCII characters it holds; the embedded text is a plain `"…"` literal, since
      the base64 alphabet has no quote, backslash or line end; an empty or
      missing broker URL becomes `None`. */
  function BuildExecScript(code: string, brokerUrl: Option<string>): (s: Script)
    ensures EmbeddedCode(s) == Some(code)
    ensures PyLiteral.LexShort('"', s.codeB64 + "\")") == Some((s.codeB64, ")"))
    ensures s.brokerUrl.Some? <==> Truthy(brokerUrl)
    ensures s.brokerUrl.Some? ==> s.brokerUrl == brokerUrl
  {
    var bytes := Utf8.Encode(code);
    var b64 := Base64.Encode(bytes);
    Utf8.DecodeEncode(code);
    Base64.DecodeEncode(bytes);
    PyLiteral.PlainShortLiteral('"', b64, ")");
    assert b64 + ['"'] + ")" == b64 + "\")";
    Script(b64, if Truthy(brokerUrl) then brokerUrl else None)
  }

  // ----- the Python runtime, abstractly -----

  /** One `exec(code, combined, combined)`: it completes with the namespace
      as the code left it, raises an `Exception` (the traceback is already in
      `err`), or raises something that is not an `Exception` (`SystemExit`),
      which the script does not catch. `out` and `err` are what the code
      wrote to the redirected streams. */
  datatype ExecOutcome<V> =
    | Completed(namespace: map<string, V>, out: string, err: string)
    | Raised(out: string, err: string)
    | Aborted

  /** The Python operations the script relies on. `repr` and `str` may raise
      (`None`); `text(t)` is the `str` object `t`; `reload(v)` is what
      `json.load` gives back for `json.dump(v)`; `exec` receives the code,
      the merged namespace and the `FINAL_VAR` the code can call. */
  datatype Runtime<!V> = Runtime(
    jsonable: V -> bool,
    repr: V -> Option<string>,
    str: V -> Option<string>,
    typeName: V -> string,
    text: string -> V,
    reload: V -> V,
    builtins: V,
    llmQuery: V,
    llmQueryBatched: V,
    finalVar: V,
    exec: (string, map<string, V>, string -> Option<string>) -> ExecOutcome<V>)

  /** The file at `StateFilePath` as the next turn finds it. */
  datatype StateFile<V> = Missing | Corrupt | Saved(entries: map<string, V>)

  const StateFilePath: string := "/tmp/rlm_state.json"

  predicate IsPrivate(name: string) {
    |name| > 0 && name[0] == '_'
  }

  /** The keys of `_globals`. */
  const GlobalNames: set<string> := {"__builtins__", "__name__", "llm_query", "llm_query_batched", "FINAL_VAR"}

  /** `_globals`: the builtins, `__name__` and the three capabilities. */
  function Globals<V>(rt: Runtime<V>): (g: map<string, V>)
    ensures g.Keys == GlobalNames
  {
    map["__builtins__" := rt.builtins, "__name__" := rt.text("__main__"),
        "llm_query" := rt.llmQuery, "llm_query_batched" := rt.llmQueryBatched,
        "FINAL_VAR" := rt.finalVar]
  }

  // ----- the script's functions -----

  /** `load_state()`: a missing or unreadable file is an empty state. */
  function LoadState<V>(rt: Runtime<V>, file: StateFile<V>): (m: map<string, V>)
    ensures !file.Saved? ==> m == map[]
    ensures file.Saved? ==> m.Keys == file.entries.Keys
    ensures file.Saved? ==> forall k :: k in m ==> m[k] == rt.reload(file.entries[k])
  {
    match file
    case Saved(entries) => map k | k in entries :: rt.reload(entries[k])
    case _ => map[]
  }

  /** `save_state(state)`: private names are never written; a JSON-serialisable
      value is written as it is, any other as its `repr`, and a value whose
      `repr` raises is dropped. */
  function SaveState<V>(rt: Runtime<V>, state: map<string, V>): (saved: map<string, V>)
    ensures saved.Keys <= state.Keys
    ensures forall k :: k in saved ==> !IsPrivate(k)
    ensures forall k :: k in state && !IsPrivate(k) && rt.jsonable(state[k]) ==>
      k in saved && saved[k] == state[k]
    ensures forall k :: k in state && !IsPrivate(k) && !rt.jsonable(state[k]) ==>
      (k in saved <==> rt.repr(state[k]).Some?)
    ensures forall k :: k in saved && !rt.jsonable(state[k]) ==>
      saved[k] == rt.text(rt.repr(state[k]).value)
  {
    map k | k in state && !IsPrivate(k) && (rt.jsonable(state[k]) || rt.repr(state[k]).Some?) ::
      if rt.jsonable(state[k]) then state[k] else rt.text(rt.repr(state[k]).value)
  }

  /** `serialize_locals(state)`: exactly the public names, each rendered by
      `repr`, or as `<typename>` when `repr` raises. */
  function SerializeLocals<V>(rt: Runtime<V>, state: map<string, V>): (shown: map<string, string>)
    ensures shown.Keys == set k | k in state && !IsPrivate(k)
    ensures forall k :: k in shown && rt.repr(state[k]).Some? ==> shown[k] == rt.repr(state[k]).value
    ensures forall k :: k in shown && rt.repr(state[k]).None? ==> shown[k] == "<" + rt.typeName(state[k]) + ">"
  {
    map k | k in state && !IsPrivate(k) ::
      match rt.repr(state[k])
      case Some(r) => r
      case None => "<" + rt.typeName(state[k]) + ">"
  }

  predicate IsQuote(c: char) {
    c == '"' || c == '\''
  }

  /** `variable_name.strip().strip("\"'")`. */
  function NormalizeName(name: string): string {
    PyStr.StripBy(PyStr.Strip(name), IsQuote)
  }

  /** `FINAL_VAR(variable_name)`: `str` of the named value in `_locals`, the
      state loaded at the start of the turn, or a not-found message. `None`
      when `str` raises, which the calling code sees as an exception. */
  function FinalVar<V>(rt: Runtime<V>, loaded: map<string, V>, name: string): (r: Option<string>)
    ensures NormalizeName(name) in loaded ==> r == rt.str(loaded[NormalizeName(name)])
    ensures NormalizeName(name) !in loaded ==> r == Some("Error: Variable '" + NormalizeName(name) + "' not found")
  {
    var n := NormalizeName(name);
    if n in loaded then rt.str(loaded[n]) else Some("Error: Variable '" + n + "' not found")
  }

  /** A name padded with whitespace and wrapped in quotes resolves like the
      bare name. */
  lemma FinalVarIgnoresQuotes<V>(rt: Runtime<V>, loaded: map<string, V>,
                                 name: string, quotes1: string, quotes2: string, pad1: string, pad2: string)
    requires |name| > 0
    requires !PyStr.IsSpace(name[0]) && !PyStr.IsSpace(name[|name| - 1])
    requires !IsQuote(name[0]) && !IsQuote(name[|name| - 1])
    requires forall k :: 0 <= k < |quotes1| ==> IsQuote(quotes1[k])
    requires forall k :: 0 <= k < |quotes2| ==> IsQuote(quotes2[k])
    requires forall k :: 0 <= k < |pad1| ==> PyStr.IsSpace(pad1[k])
    requires forall k :: 0 <= k < |pad2| ==> PyStr.IsSpace(pad2[k])
    ensures NormalizeName(pad1 + quotes1 + name + quotes2 + pad2) == name
    ensures FinalVar(rt, loaded, pad1 + quotes1 + name + quotes2 + pad2) == FinalVar(rt, loaded, name)
  {
    NormalizeFramed(name, quotes1, quotes2, pad1, pad2);
    NormalizeBare(name);
  }

  lemma NormalizeFramed(name: string, quotes1: string, quotes2: string, pad1: string, pad2: string)
    requires |name| > 0
    requires !PyStr.IsSpace(name[0]) && !PyStr.IsSpace(name[|name| - 1])
    requires !IsQuote(name[0]) && !IsQuote(name[|name| - 1])
    requires forall k :: 0 <= k < |quotes1| ==> IsQuote(quotes1[k])
    requires forall k :: 0 <= k < |quotes2| ==> IsQuote(quotes2[k])
    requires forall k :: 0 <= k < |pad1| ==> PyStr.IsSpace(pad1[k])
    requires forall k :: 0 <= k < |pad2| ==> PyStr.IsSpace(pad2[k])
    ensures NormalizeName(pad1 + quotes1 + name + quotes2 + pad2) == name
  {
    var quoted := quotes1 + name + quotes2;
    StripPadding(quoted, pad1, pad2, name, quotes1, quotes2);
    PyStr.StripFrame(quotes1, name, quotes2, IsQuote);
  }

  lemma StripPadding(quoted: string, pad1: string, pad2: string, name: string, quotes1: string, quotes2: string)
    requires quoted == quotes1 + name + quotes2
    requires |name| > 0
    requires !PyStr.IsSpace(name[0]) && !PyStr.IsSpace(name[|name| - 1])
    requires forall k :: 0 <= k < |quotes1| ==> IsQuote(quotes1[k])
    requires forall k :: 0 <= k < |quotes2| ==> IsQuote(quotes2[k])
    requires forall k :: 0 <= k < |pad1| ==> PyStr.IsSpace(pad1[k])
    requires forall k :: 0 <= k < |pad2| ==> PyStr.IsSpace(pad2[k])
    ensures PyStr.Strip(pad1 + quotes1 + name + quotes2 + pad2) == quoted
  {
    QuotedEndsNotSpace(name, quotes1, quotes2);
    PyStr.StripFrame(pad1, quoted, pad2, PyStr.IsSpace);
    Regroup(pad1, quotes1, name, quotes2, pad2);
  }

  lemma Regroup(a: string, b: string, c: string, d: string, e: string)
    ensures a + b + c + d + e == a + (b + c + d) + e
  {
  }

  lemma QuotedEndsNotSpace(name: string, quotes1: string, quotes2: string)
    requires |name| > 0
    requires !PyStr.IsSpace(name[0]) && !PyStr.IsSpace(name[|name| - 1])
    requires forall k :: 0 <= k < |quotes1| ==> IsQuote(quotes1[k])
    requires forall k :: 0 <= k < |quotes2| ==> IsQuote(quotes2[k])
    ensures var quoted := quotes1 + name + quotes2;
      |quoted| > 0 && !PyStr.IsSpace(quoted[0]) && !PyStr.IsSpace(quoted[|quoted| - 1])
  {
    var quoted := quotes1 + name + quotes2;
    if |quotes1| > 0 {
      assert quoted[0] == quotes1[0];
      assert IsQuote(quoted[0]);
    } else {
      assert quoted[0] == name[0];
    }
    if |quotes2| > 0 {
      assert quoted[|quoted| - 1] == quotes2[|quotes2| - 1];
      assert IsQuote(quoted[|quoted| - 1]);
    } else {
      assert quoted[|quoted| - 1] == name[|name| - 1];
    }
  }

  lemma NormalizeBare(name: string)
    requires |name| > 0
    requires !PyStr.IsSpace(name[0]) && !PyStr.IsSpace(name[|name| - 1])
    requires !IsQuote(name[0]) && !IsQuote(name[|name| - 1])
    ensures NormalizeName(name) == name
  {
    PyStr.StripFrame("", name, "", PyStr.IsSpace);
    PyStr.StripFrame("", name, "", IsQuote);
    assert "" + name + "" == name;
  }

  /** `{**_globals, **_locals}`: every injected and every loaded name, a
      loaded value shadowing an injected one. */
  function Merge<V>(globals: map<string, V>, loaded: map<string, V>): (ns: map<string, V>)
    ensures ns.Keys == globals.Keys + loaded.Keys
    ensures forall k :: k in loaded ==> ns[k] == loaded[k]
    ensures forall k :: k in globals && k !in loaded ==> ns[k] == globals[k]
  {
    globals + loaded
  }

  /** The names the copy-back loop writes into `_locals`. */
  predicate CopiedBack<V>(k: string, ns: map<string, V>) {
    k in ns && k !in GlobalNames && !IsPrivate(k)
  }

  /** The loop after `exec`: each public, non-injected name of the namespace
      is written into `_locals`; every other entry of `_locals` is left as
      loaded, so a name the code deleted keeps its old value. */
  function CopyBack<V>(loaded: map<string, V>, ns: map<string, V>): (locals: map<string, V>)
    ensures forall k :: k in locals <==> k in loaded || CopiedBack(k, ns)
    ensures forall k :: CopiedBack(k, ns) ==> locals[k] == ns[k]
    ensures forall k :: k in loaded && !CopiedBack(k, ns) ==> locals[k] == loaded[k]
  {
    loaded + map k | k in ns && k !in GlobalNames && !IsPrivate(k) :: ns[k]
  }

  // ----- one run of the script -----

  /** The JSON object the script prints as its last line. */
  datatype ResultRecord = ResultRecord(stdout: string, stderr: string, locals: map<string, string>)

  /** A run either reaches its final `print`, or dies before it (a decoding
      error, or an exception `except Exception` does not catch) leaving the
      state file as it was. */
  datatype ScriptRun<V> = Finished(file: StateFile<V>, record: ResultRecord) | Crashed(file: StateFile<V>)

  /** The `exec` call a run of `code` makes against `file`. */
  function ExecOf<V>(rt: Runtime<V>, code: string, file: StateFile<V>): ExecOutcome<V> {
    var loaded := LoadState(rt, file);
    rt.exec(code, Merge(Globals(rt), loaded), (n: string) => FinalVar(rt, loaded, n))
  }

  /** The script from the decoded code on. Bindings are copied back only when
      `exec` returns; when it raises, no name of `_locals` is rebound. The
      state is saved either way, and the locals reported are the saved
      locals. Values are immutable here; in Python, `{**_globals, **_locals}`
      is a shallow copy, so an in-place mutation made before the exception
      is still saved and reported. */
  function RunCode<V>(rt: Runtime<V>, code: string, file: StateFile<V>): (run: ScriptRun<V>)
    ensures run.Crashed? <==> ExecOf(rt, code, file).Aborted?
    ensures run.Crashed? ==> run.file == file
    ensures run.Finished? ==> run.file.Saved? && forall k :: k in run.file.entries ==> !IsPrivate(k)
    ensures ExecOf(rt, code, file).Raised? ==>
      && run.file == Saved(SaveState(rt, LoadState(rt, file)))
      && run.record == ResultRecord(ExecOf(rt, code, file).out, ExecOf(rt, code, file).err,
                                    SerializeLocals(rt, LoadState(rt, file)))
    ensures ExecOf(rt, code, file).Completed? ==>
      var locals := CopyBack(LoadState(rt, file), ExecOf(rt, code, file).namespace);
      && run.file == Saved(SaveState(rt, locals))
      && run.record == ResultRecord(ExecOf(rt, code, file).out, ExecOf(rt, code, file).err,
                                    SerializeLocals(rt, locals))
  {
    var loaded := LoadState(rt, file);
    match ExecOf(rt, code, file)
    case Completed(ns, out, err) =>
      var locals := CopyBack(loaded, ns);
      Finished(Saved(SaveState(rt, locals)), ResultRecord(out, err, SerializeLocals(rt, locals)))
    case Raised(out, err) =>
      Finished(Saved(SaveState(rt, loaded)), ResultRecord(out, err, SerializeLocals(rt, loaded)))
    case Aborted =>
      Crashed(file)
  }

  /** The whole script: decode the embedded code, then run it. */
  function RunScript<V>(rt: Runtime<V>, script: Script, file: StateFile<V>): ScriptRun<V> {
    match EmbeddedCode(script)
    case None => Crashed(file)
    case Some(code) => RunCode(rt, code, file)
  }

  // ----- properties across turns -----

  /** A public name the code binds is reported in the run's `locals`, as its
      `repr` when it has one and as `<typename>` otherwise; so is a public
      name loaded from the state file that the code left alone. */
  lemma BindingReported<V>(rt: Runtime<V>, code: string, file: StateFile<V>, x: string)
    ensures ExecOf(rt, code, file).Completed? && CopiedBack(x, ExecOf(rt, code, file).namespace) ==>
      var v := ExecOf(rt, code, file).namespace[x];
      var shown := RunCode(rt, code, file).record.locals;
      && x in shown
      && shown[x] == (if rt.repr(v).Some? then rt.repr(v).value else "<" + rt.typeName(v) + ">")
  {
    if ExecOf(rt, code, file).Completed? && CopiedBack(x, ExecOf(rt, code, file).namespace) {
      var locals := CopyBack(LoadState(rt, file), ExecOf(rt, code, file).namespace);
      assert x in locals && !IsPrivate(x);
    }
  }

  /** A script built for `code` runs exactly `code`. */
  lemma BuiltScriptRunsCode<V>(rt: Runtime<V>, code: string, brokerUrl: Option<string>, file: StateFile<V>)
    ensures RunScript(rt, BuildExecScript(code, brokerUrl), file) == RunCode(rt, code, file)
  {
  }

  /** Continuity: a public name bound by this turn's code is visible to the
      next turn, as its JSON round trip when serialisable and as its `repr`
      string otherwise. */
  lemma BindingVisibleNextTurn<V>(rt: Runtime<V>, code: string, file: StateFile<V>, x: string)
    requires ExecOf(rt, code, file).Completed?
    requires CopiedBack(x, ExecOf(rt, code, file).namespace)
    requires var v := ExecOf(rt, code, file).namespace[x]; rt.jsonable(v) || rt.repr(v).Some?
    ensures var v := ExecOf(rt, code, file).namespace[x];
      var next := LoadState(rt, RunCode(rt, code, file).file);
      && x in next
      && next[x] == (if rt.jsonable(v) then rt.reload(v) else rt.reload(rt.text(rt.repr(v).value)))
  {
    var ns := ExecOf(rt, code, file).namespace;
    var locals := CopyBack(LoadState(rt, file), ns);
    assert locals[x] == ns[x];
  }

  /** A name the code deleted (or did not touch) keeps its loaded value in
      the saved state, when that value can be saved as it is. */
  lemma DeletedNameSurvives<V>(rt: Runtime<V>, code: string, file: StateFile<V>, x: string)
    requires ExecOf(rt, code, file).Completed?
    requires x in LoadState(rt, file) && !IsPrivate(x)
    requires !CopiedBack(x, ExecOf(rt, code, file).namespace)
    requires rt.jsonable(LoadState(rt, file)[x])
    ensures var run := RunCode(rt, code, file);
      run.file.Saved? && x in run.file.entries && run.file.entries[x] == LoadState(rt, file)[x]
  {
  }

  /** Strings survive a save: the runtime writes `str` objects to JSON as
      they are. */
  ghost predicate StringsAreJson<V>(rt: Runtime<V>) {
    forall t :: rt.jsonable(rt.text(t))
  }

  /** Saving what was saved changes nothing, once strings are JSON. */
  lemma SaveStateIdempotent<V>(rt: Runtime<V>, state: map<string, V>)
    requires StringsAreJson(rt)
    ensures SaveState(rt, SaveState(rt, state)) == SaveState(rt, state)
  {
    var once := SaveState(rt, state);
    var twice := SaveState(rt, once);
    forall k | k in once
      ensures rt.jsonable(once[k])
    {
      if !rt.jsonable(state[k]) {
        assert once[k] == rt.text(rt.repr(state[k]).value);
      }
    }
    assert twice.Keys == once.Keys;
  }

  /** Every name the save keeps is reported among the locals. */
  lemma SavedNamesAreReported<V>(rt: Runtime<V>, state: map<string, V>)
    ensures SaveState(rt, state).Keys <= SerializeLocals(rt, state).Keys
  {
  }
}
