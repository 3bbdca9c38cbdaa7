/** The agent executor of skills/sub-agents/scripts/run_subagent.py: the command
    line of each CLI, the framed prompt, and the response `execute_agent` builds
    from what the child process does. The process itself is abstract: an
    `Outcome` says how spawning went, which lines the child writes and how it
    ends. */
module Executor {
  import opened Wrappers
  import opened Text
  import opened Json
  import opened Environment
  import opened Resolver
  import opened Stream

  // ---------------------------------------------------------------------------
  // The command

  /** The program to run and its arguments. */
  datatype Command = Command(program: string, args: seq<string>)

  /** `-a <key>` is added for cursor-agent when `CLI_API_KEY` is set and not empty. */
  predicate WithApiKey(cli: string, env: Env) {
    cli == CursorAgent && IsSet(env, "CLI_API_KEY")
  }

  /** `build_command(cli, prompt)`, with the environment passed in. An unknown CLI
      raises `ValueError("Unknown CLI: <cli>")`. */
  function BuildCommand(cli: string, prompt: string, env: Env): (r: Result<Command, string>)
    ensures r.Err? <==> !IsKnownCli(cli)
    ensures r.Err? ==> r.error == "Unknown CLI: " + cli
    // the program is named like the CLI
    ensures r.Ok? ==> r.value.program == cli
    // the prompt is the last argument, unless `-a <key>` follows it
    ensures r.Ok? && !WithApiKey(cli, env) ==> |r.value.args| >= 1 && r.value.args[|r.value.args| - 1] == prompt
    ensures r.Ok? && WithApiKey(cli, env) ==>
      |r.value.args| >= 3 && r.value.args[|r.value.args| - 3..] == [prompt, "-a", env["CLI_API_KEY"]]
  {
    if cli == Codex then
      Ok(Command("codex", ["exec", "--json", prompt]))
    else if cli == Claude then
      Ok(Command("claude", ["--output-format", "stream-json", "--verbose", "-p", prompt]))
    else if cli == Gemini then
      Ok(Command("gemini", ["--output-format", "stream-json", "-p", prompt]))
    else if cli == CursorAgent then
      var args := ["--output-format", "json", "-p", prompt];
      Ok(Command("cursor-agent", if IsSet(env, "CLI_API_KEY") then args + ["-a", env["CLI_API_KEY"]] else args))
    else
      Err("Unknown CLI: " + cli)
  }

  /** Where the prompt sits in the arguments of a known CLI. */
  function PromptIndex(cli: string): nat {
    if cli == Codex then 2 else if cli == Claude then 4 else 3
  }

  /** `a` and `b` have the same length and agree everywhere except perhaps at `i`. */
  predicate DiffersOnlyAt(a: seq<string>, b: seq<string>, i: nat) {
    |a| == |b| && i < |a| && forall j :: 0 <= j < |a| && j != i ==> a[j] == b[j]
  }

  /** The prompt is passed as one argument, whatever it holds: the commands for two
      prompts differ in exactly one position, which holds the prompt. */
  lemma PromptIsOneArgument(cli: string, p: string, q: string, env: Env)
    requires IsKnownCli(cli)
    ensures var a, b := BuildCommand(cli, p, env).value.args, BuildCommand(cli, q, env).value.args;
      DiffersOnlyAt(a, b, PromptIndex(cli)) && a[PromptIndex(cli)] == p && b[PromptIndex(cli)] == q
  {
    var a, b := BuildCommand(cli, p, env).value.args, BuildCommand(cli, q, env).value.args;
    if cli == Codex {
      assert a == ["exec", "--json", p] && b == ["exec", "--json", q];
    } else if cli == Claude {
      assert a == ["--output-format", "stream-json", "--verbose", "-p", p];
      assert b == ["--output-format", "stream-json", "--verbose", "-p", q];
    } else if cli == Gemini {
      assert a == ["--output-format", "stream-json", "-p", p] && b == ["--output-format", "stream-json", "-p", q];
    } else {
      var ka := ["--output-format", "json", "-p", p];
      var kb := ["--output-format", "json", "-p", q];
      if IsSet(env, "CLI_API_KEY") {
        assert a == ka + ["-a", env["CLI_API_KEY"]] && b == kb + ["-a", env["CLI_API_KEY"]];
      } else {
        assert a == ka && b == kb;
      }
    }
  }

  /** The argument lists the tests of `build_command` pin down. */
  lemma BuildCommandExamples()
    ensures BuildCommand("codex", "test prompt", map[]) == Ok(Command("codex", ["exec", "--json", "test prompt"]))
    ensures BuildCommand("claude", "test prompt", map[]) ==
      Ok(Command("claude", ["--output-format", "stream-json", "--verbose", "-p", "test prompt"]))
    ensures BuildCommand("cursor-agent", "test prompt", map[]) ==
      Ok(Command("cursor-agent", ["--output-format", "json", "-p", "test prompt"]))
    ensures BuildCommand("cursor-agent", "test prompt", map["CLI_API_KEY" := "test-key"]) ==
      Ok(Command("cursor-agent", ["--output-format", "json", "-p", "test prompt", "-a", "test-key"]))
    ensures BuildCommand("gemini", "test prompt", map[]) ==
      Ok(Command("gemini", ["--output-format", "stream-json", "-p", "test prompt"]))
    ensures BuildCommand("unknown-cli", "test prompt", map[]) == Err("Unknown CLI: unknown-cli")
  {
    var env := map["CLI_API_KEY" := "test-key"];
    assert IsSet(env, "CLI_API_KEY") && env["CLI_API_KEY"] == "test-key";
    assert ["--output-format", "json", "-p", "test prompt"] + ["-a", "test-key"] ==
      ["--output-format", "json", "-p", "test prompt", "-a", "test-key"];
    assert "Unknown CLI: " + "unknown-cli" == "Unknown CLI: unknown-cli";
  }

  // ---------------------------------------------------------------------------
  // The prompt

  const SystemHeader := "[System Context]\n"
  const UserHeader := "\n\n[User Prompt]\n"

  /** The prompt handed to the CLI: the system context, then the user's prompt,
      each under its header. */
  function FramePrompt(systemContext: string, prompt: string): string {
    SystemHeader + systemContext + UserHeader + prompt
  }

  /** The framed prompt can be cut back into its four parts: the context sits right
      after the first header and the prompt ends the text. */
  lemma FramePromptParts(systemContext: string, prompt: string)
    ensures var r, n := FramePrompt(systemContext, prompt), |SystemHeader| + |systemContext|;
      && |r| == n + |UserHeader| + |prompt|
      && r[..|SystemHeader|] == SystemHeader
      && r[|SystemHeader|..n] == systemContext
      && r[n..n + |UserHeader|] == UserHeader
      && r[n + |UserHeader|..] == prompt
  {
  }

  /** Both headers, the context and the prompt occur in the framed prompt. */
  lemma FramePromptContains(systemContext: string, prompt: string)
    ensures var r := FramePrompt(systemContext, prompt);
      Contains(r, "[System Context]") && Contains(r, systemContext) &&
      Contains(r, "[User Prompt]") && Contains(r, prompt)
  {
    var r := FramePrompt(systemContext, prompt);
    var n := |SystemHeader| + |systemContext|;
    FramePromptParts(systemContext, prompt);
    HeaderWords(r, n);
    ContainsSlice(r, 0, 16);
    ContainsSlice(r, |SystemHeader|, n);
    ContainsSlice(r, n + 2, n + 15);
    assert r[n + |UserHeader|..|r|] == prompt;
    ContainsSlice(r, n + |UserHeader|, |r|);
  }

  /** The words of the two headers, where the framed prompt `r` holds them. */
  lemma HeaderWords(r: string, n: nat)
    requires |SystemHeader| <= n && n + |UserHeader| <= |r|
    requires r[..|SystemHeader|] == SystemHeader && r[n..n + |UserHeader|] == UserHeader
    ensures r[0..16] == "[System Context]" && r[n + 2..n + 15] == "[User Prompt]"
  {
    assert |SystemHeader| == 17 && |UserHeader| == 16;
    assert r[0..16] == r[..|SystemHeader|][..16];
    var u := r[n..n + |UserHeader|];
    assert forall k :: 0 <= k < 13 ==> u[2..15][k] == u[k + 2];
    assert u[2..15] == r[n + 2..n + 15];
    assert UserHeader[2..15] == "[User Prompt]";
  }

  // ---------------------------------------------------------------------------
  // The response

  datatype Status = Success | Partial | Error

  /** The dictionary `execute_agent` returns; `error` is the optional `"error"` key. */
  datatype Envelope = Envelope(result: Json, exitCode: int, status: Status, cli: string, error: Option<string>)

  /** How the child ends once the readline loop is over: `communicate` returns its
      exit status and standard error, times out, or raises with a message. */
  datatype Finish = Exited(returncode: Option<int>, stderr: string) | TimedOut | Crashed(message: string)

  /** What happens to the child: `Popen` raises `FileNotFoundError`, raises another
      exception, or starts a child that writes `lines` and then finishes. */
  datatype Outcome = SpawnNotFound | SpawnFailed(message: string) | Spawned(lines: seq<Line>, finish: Finish)

  /** `process.returncode or 0`. */
  function ExitCode(returncode: Option<int>): int {
    if returncode.Some? then returncode.value else 0
  }

  /** `result.get("result", "") if result else ""`. */
  function ResultText(result: Option<Dict>): Json {
    if Truthy(result) then GetOr(result.value, "result", JStr("")) else JStr("")
  }

  /** The status decision after a normal exit. */
  function ExitStatus(exitCode: int, result: Option<Dict>): Status {
    if exitCode == 0 || ((exitCode == 143 || exitCode == -15) && Truthy(result)) then Success
    else if Truthy(result) then Partial
    else Error
  }

  /** A normal exit is an error only when no result was produced and the code is
      not zero; a result makes it at least partial, and termination by the runner
      itself (143 or -15) after a result counts as success. */
  lemma ExitStatusMeaning(exitCode: int, result: Option<Dict>)
    ensures ExitStatus(exitCode, result) == Error <==> exitCode != 0 && !Truthy(result)
    ensures ExitStatus(exitCode, result) == Partial <==>
      Truthy(result) && exitCode != 0 && exitCode != 143 && exitCode != -15
    ensures !Truthy(result) ==> (ExitStatus(exitCode, result) == Success <==> exitCode == 0)
  {
  }

  /** The `"error"` text after a normal exit with status `error`. */
  function ExitError(exitCode: int, stderr: string): string {
    var base := "CLI exited with code " + IntToString(exitCode);
    if Strip(stderr) != "" then base + ": " + Strip(stderr) else base
  }

  /** The text names the exit code, and the stripped standard error follows it
      exactly when standard error is not blank. */
  lemma ExitErrorShape(exitCode: int, stderr: string)
    ensures var base, e := "CLI exited with code " + IntToString(exitCode), ExitError(exitCode, stderr);
      && base <= e
      && (IsBlank(stderr) <==> e == base)
      && (!IsBlank(stderr) ==> e == base + ": " + Strip(stderr))
  {
    StripEmptyIffBlank(stderr);
  }

  /** The standard output lines read, as text. */
  function Texts(lines: seq<Line>): (r: seq<string>)
    ensures |r| == |lines| && forall i :: 0 <= i < |lines| ==> r[i] == lines[i].text
  {
    seq(|lines|, i requires 0 <= i < |lines| => lines[i].text)
  }

  /** What `execute_agent` returns once the readline loop is over without raising:
      `result` is what the processor holds and `stdout` the lines read. */
  function Finished(cli: string, result: Option<Dict>, stdout: seq<string>, finish: Finish, timeoutMs: int): Envelope {
    match finish
    case TimedOut =>
      Envelope(ResultText(result), 124, if Truthy(result) then Partial else Error, cli,
               Some("Timeout after " + IntToString(timeoutMs) + "ms"))
    case Crashed(message) =>
      Envelope(ResultText(result), 1, Error, cli, Some(message))
    case Exited(returncode, stderr) =>
      var code := ExitCode(returncode);
      var status := ExitStatus(code, result);
      Envelope(if Truthy(result) then ResultText(result) else JStr(Concat(stdout)), code, status, cli,
               if status == Error then Some(ExitError(code, stderr)) else None)
  }

  /** `execute_agent(cli, system_context, prompt, cwd, timeout)`, with the
      environment and the child's behaviour passed in. `Err` is the `ValueError` of
      an unknown CLI, raised before anything is spawned. */
  function Execute(cli: string, systemContext: string, prompt: string, env: Env, timeoutMs: int, outcome: Outcome)
    : (r: Result<Envelope, string>)
    ensures r.Err? <==> !IsKnownCli(cli)
    ensures r.Err? ==> r.error == "Unknown CLI: " + cli
    ensures r.Ok? ==> r.value.cli == cli
    // an error always says why
    ensures r.Ok? && r.value.status == Error ==> r.value.error.Some?
    // the only response that is not an error and still carries "error" is a timeout
    ensures r.Ok? && r.value.status != Error ==>
      (r.value.error.Some? <==> outcome.Spawned? && outcome.finish.TimedOut?)
    ensures r.Ok? && outcome.SpawnNotFound? ==> r.value == Envelope(JStr(""), 127, Error, cli, Some("CLI not found: " + cli))
    // any other exception while spawning is an error with exit code 1 and its message
    ensures r.Ok? && outcome.SpawnFailed? ==> r.value == Envelope(JStr(""), 1, Error, cli, Some(outcome.message))
    // a raise inside the loop, or a crash after it, is an error with exit code 1
    // that keeps the text of any result already set
    ensures r.Ok? && outcome.Spawned? ==> var d := Run(Feed, Initial, outcome.lines);
      (d.stop.AtRaise? || outcome.finish.Crashed?) ==>
        r.value == Envelope(ResultText(d.state.resultJson), 1, Error, cli,
                            Some(if d.stop.AtRaise? then d.stop.message else outcome.finish.message))
    // a timeout gives exit code 124: partial with the result's text when a
    // non-empty result was set, otherwise an error with no text
    ensures r.Ok? && outcome.Spawned? && outcome.finish.TimedOut? ==> var d := Run(Feed, Initial, outcome.lines);
      !d.stop.AtRaise? ==>
        && r.value.exitCode == 124 && r.value.result == ResultText(d.state.resultJson)
        && (r.value.status == Partial <==> Truthy(d.state.resultJson))
        && (r.value.status == Error <==> !Truthy(d.state.resultJson))
        && r.value.error == Some("Timeout after " + IntToString(timeoutMs) + "ms")
    // a normal exit reports `returncode or 0` and the status it decides
    ensures r.Ok? && outcome.Spawned? && outcome.finish.Exited? ==> var d := Run(Feed, Initial, outcome.lines);
      !d.stop.AtRaise? ==>
        && r.value.exitCode == ExitCode(outcome.finish.returncode)
        && r.value.status == ExitStatus(ExitCode(outcome.finish.returncode), d.state.resultJson)
        // the result's text, or with no non-empty result the raw lines read
        && r.value.result == (if Truthy(d.state.resultJson) then ResultText(d.state.resultJson)
                              else JStr(Concat(Texts(outcome.lines[..d.consumed]))))
        // an error names the exit code and standard error; no other reply has "error"
        && r.value.error == (if r.value.status == Error then Some(ExitError(r.value.exitCode, outcome.finish.stderr)) else None)
  {
    match BuildCommand(cli, FramePrompt(systemContext, prompt), env)
    case Err(e) => Err(e)
    case Ok(command) =>
      match outcome
      case SpawnNotFound => Ok(Envelope(JStr(""), 127, Error, cli, Some("CLI not found: " + command.program)))
      case SpawnFailed(message) => Ok(Envelope(JStr(""), 1, Error, cli, Some(message)))
      case Spawned(lines, finish) =>
        var d := Run(Feed, Initial, lines);
        Ok(Respond(cli, d, Texts(lines[..d.consumed]), finish, timeoutMs))
  }

  /** The response once the readline loop stopped as `d` says, after keeping the
      lines `stdout`: a `process_line` that raised is an error with exit code 1. */
  function Respond(cli: string, d: Drain, stdout: seq<string>, finish: Finish, timeoutMs: int): Envelope {
    if d.stop.AtRaise? then
      Envelope(ResultText(d.state.resultJson), 1, Error, cli, Some(d.stop.message))
    else
      Finished(cli, d.state.resultJson, stdout, finish, timeoutMs)
  }

  /** For a known CLI the response to a started child depends only on how the loop
      over its lines ends and on how the child finishes. */
  lemma ExecuteSpawned(cli: string, systemContext: string, prompt: string, env: Env, timeoutMs: int,
                       lines: seq<Line>, finish: Finish, d: Drain)
    requires IsKnownCli(cli) && d == Run(Feed, Initial, lines)
    ensures Execute(cli, systemContext, prompt, env, timeoutMs, Spawned(lines, finish)) ==
      Ok(Respond(cli, d, Texts(lines[..d.consumed]), finish, timeoutMs))
  {
  }

  /** The reply does not depend on the system context, the prompt or the
      environment: they only shape the command line, which the reply never shows. */
  lemma ExecuteIgnoresPrompt(cli: string, systemContext: string, prompt: string, env: Env,
                             systemContext': string, prompt': string, env': Env, timeoutMs: int, outcome: Outcome)
    requires IsKnownCli(cli)
    ensures Execute(cli, systemContext, prompt, env, timeoutMs, outcome) ==
      Execute(cli, systemContext', prompt', env', timeoutMs, outcome)
  {
  }

  /** A loop that stopped at a non-empty result, then a normal exit: the result's
      `"result"` value is reported, and the status follows the exit code. */
  lemma RespondReady(cli: string, d: Drain, stdout: seq<string>, returncode: Option<int>, stderr: string, timeoutMs: int)
    requires d.stop == AtResult && Truthy(d.state.resultJson)
    ensures var code := ExitCode(returncode);
      Respond(cli, d, stdout, Exited(returncode, stderr), timeoutMs) ==
        Envelope(ResultText(d.state.resultJson), code, if code == 0 || code == 143 || code == -15 then Success else Partial, cli, None)
  {
  }

  /** A Gemini stream read to its `result` event: the response carries the parts
      concatenated. After a normal exit it is a success unless the exit code is
      neither 0 nor that of the runner's own termination, when it is partial; after
      a timeout it is partial, with exit code 124 and the timeout message. */
  lemma ExecuteGeminiStream(cli: string, systemContext: string, prompt: string, env: Env, timeoutMs: int,
                            lines: seq<Line>, contents: seq<string>, returncode: Option<int>, stderr: string)
    requires IsKnownCli(cli)
    requires |lines| >= 2 && EventLine(lines[0], "init")
    requires GeminiMessages(lines[1..|lines| - 1], contents)
    requires EventLine(lines[|lines| - 1], "result")
    ensures var code := ExitCode(returncode);
      Execute(cli, systemContext, prompt, env, timeoutMs, Spawned(lines, Exited(returncode, stderr))) ==
        Ok(Envelope(JStr(Concat(contents)), code, if code == 0 || code == 143 || code == -15 then Success else Partial, cli, None))
    ensures Execute(cli, systemContext, prompt, env, timeoutMs, Spawned(lines, TimedOut)) ==
      Ok(Envelope(JStr(Concat(contents)), 124, Partial, cli, Some("Timeout after " + IntToString(timeoutMs) + "ms")))
  {
    GeminiStream(lines, contents);
    var d := Run(Feed, Initial, lines);
    var result := GeminiResult(contents, Fields(lines[|lines| - 1]));
    assert "type" in result && "result" in result && result["result"] == JStr(Concat(contents));
    ExecuteSpawned(cli, systemContext, prompt, env, timeoutMs, lines, Exited(returncode, stderr), d);
    ExecuteSpawned(cli, systemContext, prompt, env, timeoutMs, lines, TimedOut, d);
    RespondReady(cli, d, Texts(lines[..d.consumed]), returncode, stderr, timeoutMs);
  }

  /** A Codex stream read to `turn.completed`: the response carries the messages
      joined by newlines, with the same status rules. */
  lemma ExecuteCodexStream(cli: string, systemContext: string, prompt: string, env: Env, timeoutMs: int,
                           lines: seq<Line>, texts: seq<string>, returncode: Option<int>, stderr: string)
    requires IsKnownCli(cli)
    requires |lines| >= 2 && EventLine(lines[0], "thread.started")
    requires CodexMessages(lines[1..|lines| - 1], texts)
    requires EventLine(lines[|lines| - 1], "turn.completed")
    ensures var code := ExitCode(returncode);
      Execute(cli, systemContext, prompt, env, timeoutMs, Spawned(lines, Exited(returncode, stderr))) ==
        Ok(Envelope(JStr(Join(texts, "\n")), code, if code == 0 || code == 143 || code == -15 then Success else Partial, cli, None))
    ensures Execute(cli, systemContext, prompt, env, timeoutMs, Spawned(lines, TimedOut)) ==
      Ok(Envelope(JStr(Join(texts, "\n")), 124, Partial, cli, Some("Timeout after " + IntToString(timeoutMs) + "ms")))
  {
    CodexStream(lines, texts);
    var d := Run(Feed, Initial, lines);
    var result := CodexResult(texts);
    assert "type" in result && "result" in result && result["result"] == JStr(Join(texts, "\n"));
    ExecuteSpawned(cli, systemContext, prompt, env, timeoutMs, lines, Exited(returncode, stderr), d);
    ExecuteSpawned(cli, systemContext, prompt, env, timeoutMs, lines, TimedOut, d);
    RespondReady(cli, d, Texts(lines[..d.consumed]), returncode, stderr, timeoutMs);
  }

  /** A loop that read every line without a result: a normal exit reports the raw
      output, a success exactly when the exit code is 0 and otherwise an error that
      names the code; a timeout reports no result. */
  lemma RespondAtEof(cli: string, d: Drain, stdout: seq<string>, returncode: Option<int>, stderr: string, timeoutMs: int)
    requires d.stop == AtEof && d.state.resultJson.None?
    ensures var code := ExitCode(returncode);
      Respond(cli, d, stdout, Exited(returncode, stderr), timeoutMs) ==
        Envelope(JStr(Concat(stdout)), code, if code == 0 then Success else Error, cli,
                 if code == 0 then None else Some(ExitError(code, stderr)))
    ensures Respond(cli, d, stdout, TimedOut, timeoutMs) ==
      Envelope(JStr(""), 124, Error, cli, Some("Timeout after " + IntToString(timeoutMs) + "ms"))
  {
  }

  /** A Codex stream cut off before `turn.completed`: the messages gathered so far
      are never surfaced. On a timeout the response holds no result; on an exit
      it holds the raw output. */
  lemma ExecuteCodexUnfinished(cli: string, systemContext: string, prompt: string, env: Env, timeoutMs: int,
                               lines: seq<Line>, texts: seq<string>, returncode: Option<int>, stderr: string)
    requires IsKnownCli(cli)
    requires |lines| >= 1 && EventLine(lines[0], "thread.started")
    requires CodexMessages(lines[1..], texts)
    ensures Execute(cli, systemContext, prompt, env, timeoutMs, Spawned(lines, TimedOut)) ==
      Ok(Envelope(JStr(""), 124, Error, cli, Some("Timeout after " + IntToString(timeoutMs) + "ms")))
    ensures Execute(cli, systemContext, prompt, env, timeoutMs, Spawned(lines, Exited(returncode, stderr))).value.result ==
      JStr(Concat(Texts(lines)))
  {
    CodexUnfinished(lines, texts);
    var d := Run(Feed, Initial, lines);
    assert lines[..d.consumed] == lines;
    ExecuteSpawned(cli, systemContext, prompt, env, timeoutMs, lines, TimedOut, d);
    ExecuteSpawned(cli, systemContext, prompt, env, timeoutMs, lines, Exited(returncode, stderr), d);
    RespondAtEof(cli, d, Texts(lines), returncode, stderr, timeoutMs);
  }

  /** Output with no JSON line at all: every line is read, the response carries the
      raw output, and it is a success exactly when the exit code is 0; otherwise
      it is an error that names the code. */
  lemma ExecutePlainOutput(cli: string, systemContext: string, prompt: string, env: Env, timeoutMs: int,
                           lines: seq<Line>, returncode: Option<int>, stderr: string)
    requires IsKnownCli(cli)
    requires forall i :: 0 <= i < |lines| ==> lines[i].decoded.None?
    ensures var code := ExitCode(returncode);
      Execute(cli, systemContext, prompt, env, timeoutMs, Spawned(lines, Exited(returncode, stderr))) ==
        Ok(Envelope(JStr(Concat(Texts(lines))), code, if code == 0 then Success else Error, cli,
                    if code == 0 then None else Some(ExitError(code, stderr))))
  {
    FeedSkipsUndecoded();
    RunUndecoded(Feed, Initial, lines);
    var d := Run(Feed, Initial, lines);
    assert lines[..d.consumed] == lines;
    ExecuteSpawned(cli, systemContext, prompt, env, timeoutMs, lines, Exited(returncode, stderr), d);
    RespondAtEof(cli, d, Texts(lines), returncode, stderr, timeoutMs);
  }

  /** A first line holding the empty object `{}`: the processor takes it as the
      result and reading stops, but the empty dict counts as no result. So the
      response carries that raw line, and it is an error unless the exit code is
      0, even when the code is the -15 of the runner's own termination. */
  lemma ExecuteEmptyObject(cli: string, systemContext: string, prompt: string, env: Env, timeoutMs: int,
                           lines: seq<Line>, returncode: Option<int>, stderr: string)
    requires IsKnownCli(cli)
    requires |lines| >= 1 && Carries(lines[0], JObj(map[]))
    ensures var code := ExitCode(returncode);
      Execute(cli, systemContext, prompt, env, timeoutMs, Spawned(lines, Exited(returncode, stderr))) ==
        Ok(Envelope(JStr(lines[0].text), code, if code == 0 then Success else Error, cli,
                    if code == 0 then None else Some(ExitError(code, stderr))))
    ensures Execute(cli, systemContext, prompt, env, timeoutMs, Spawned(lines, TimedOut)) ==
      Ok(Envelope(JStr(""), 124, Error, cli, Some("Timeout after " + IntToString(timeoutMs) + "ms")))
  {
    RunUnfold(Feed, Initial, lines);
    var d := Run(Feed, Initial, lines);
    assert d == Drain(Initial.(resultJson := Some(map[])), 1, AtResult);
    assert Texts(lines[..1]) == [lines[0].text];
    ExecuteSpawned(cli, systemContext, prompt, env, timeoutMs, lines, Exited(returncode, stderr), d);
    ExecuteSpawned(cli, systemContext, prompt, env, timeoutMs, lines, TimedOut, d);
  }

  /** A timeout while the processor holds no truthy result and no line raised:
      exit code 124, an error naming the timeout. This covers output with no JSON
      line, a first `{}` line (an empty dict is falsy) and a stream cut off before
      its closing event alike. */
  lemma ExecuteTimeoutWithoutResult(cli: string, systemContext: string, prompt: string, env: Env, timeoutMs: int,
                                    lines: seq<Line>)
    requires IsKnownCli(cli)
    requires !Run(Feed, Initial, lines).stop.AtRaise?
    requires !Truthy(Run(Feed, Initial, lines).state.resultJson)
    ensures Execute(cli, systemContext, prompt, env, timeoutMs, Spawned(lines, TimedOut)) ==
      Ok(Envelope(JStr(""), 124, Error, cli, Some("Timeout after " + IntToString(timeoutMs) + "ms")))
  {
    var d := Run(Feed, Initial, lines);
    ExecuteSpawned(cli, systemContext, prompt, env, timeoutMs, lines, TimedOut, d);
  }

  /** One more line read adds its text to the lines kept. */
  lemma TextsSnoc(lines: seq<Line>, i: nat)
    requires i < |lines|
    ensures Texts(lines[..i + 1]) == Texts(lines[..i]) + [lines[i].text]
  {
  }

  /** The readline loop of `execute_agent`: append each line to the output kept,
      feed it to a fresh processor, and stop right after the first line for which
      `process_line` returns `True` or raises. */
  method ReadOutput(lines: seq<Line>) returns (processor: StreamProcessor, stdoutLines: seq<string>, stop: Stop)
    ensures fresh(processor)
    ensures Run(Feed, Initial, lines) == Drain(processor.State(), |stdoutLines|, stop)
    ensures stdoutLines == Texts(lines[..|stdoutLines|])
  {
    processor := new StreamProcessor();
    stdoutLines := [];
    var stopped: Option<Stop> := None;
    var i := 0;
    while i < |lines| && stopped.None?
      invariant 0 <= i <= |lines| && |stdoutLines| == i
      invariant stdoutLines == Texts(lines[..i])
      invariant stopped.None? ==> Run(Feed, Initial, lines) == After(i, Run(Feed, processor.State(), lines[i..]))
      invariant stopped.Some? ==> Run(Feed, Initial, lines) == Drain(processor.State(), i, stopped.value)
    {
      var line := lines[i];
      TextsSnoc(lines, i);
      stdoutLines := stdoutLines + [line.text];
      RunUnfold(Feed, processor.State(), lines[i..]);
      DropOne(lines, i);
      var signal := processor.ProcessLine(line);
      i := i + 1;
      match signal {
        case Ready => stopped := Some(AtResult);
        case Raise(message) => stopped := Some(AtRaise(message));
        case Continue =>
      }
    }
    if stopped.None? {
      assert lines[i..] == [];
    }
    stop := stopped.GetOr(AtEof);
  }

  /** `execute_agent`: frame the prompt, build the command, run the child and build
      the response from the lines read and how the child ended. */
  method ExecuteAgent(cli: string, systemContext: string, prompt: string, env: Env, timeoutMs: int, outcome: Outcome)
    returns (r: Result<Envelope, string>)
    ensures r == Execute(cli, systemContext, prompt, env, timeoutMs, outcome)
  {
    var formatted := FramePrompt(systemContext, prompt);
    var built := BuildCommand(cli, formatted, env);
    if built.Err? {
      return Err(built.error);
    }
    var command := built.value;
    match outcome {
      case SpawnNotFound =>
        return Ok(Envelope(JStr(""), 127, Error, cli, Some("CLI not found: " + command.program)));
      case SpawnFailed(message) =>
        return Ok(Envelope(JStr(""), 1, Error, cli, Some(message)));
      case Spawned(lines, finish) =>
        var processor, stdoutLines, stop := ReadOutput(lines);
        var result := processor.GetResult();
        if stop.AtRaise? {
          return Ok(Envelope(ResultText(result), 1, Error, cli, Some(stop.message)));
        }
        return Ok(Finished(cli, result, stdoutLines, finish, timeoutMs));
    }
  }
}
