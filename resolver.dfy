/** The CLI resolver of skills/sub-agents/scripts/run_subagent.py: which of the four
    CLIs runs an agent. The environment and the text of the parent process's
    command line are passed in. */
module Resolver {
  import opened Wrappers
  import opened Text
  import opened Environment

  const Claude := "claude"
  const CursorAgent := "cursor-agent"
  const Codex := "codex"
  const Gemini := "gemini"

  /** The CLI used when neither the definition nor the caller names one. */
  const DefaultCli := Codex

  /** The four CLIs the runner knows how to drive. */
  predicate IsKnownCli(cli: string) {
    cli == Claude || cli == CursorAgent || cli == Codex || cli == Gemini
  }

  /** The environment flags, in the order they are checked, with the CLI each one names. */
  const EnvOrder: seq<(string, string)> :=
    [("CLAUDE_CODE", Claude), ("CURSOR_AGENT", CursorAgent), ("CODEX_CLI", Codex), ("GEMINI_CLI", Gemini)]

  /** The words looked for in the lower-cased command line, in order, with the CLI each one names. */
  const CmdlineOrder: seq<(string, string)> :=
    [("claude", Claude), ("cursor", CursorAgent), ("codex", Codex), ("gemini", Gemini)]

  /** `detect_caller_cli()`. `cmdline` is the text of `/proc/<ppid>/cmdline`, or
      `None` when that file does not exist or reading it raises. */
  function DetectCallerCli(env: Env, cmdline: Option<string>): (r: Option<string>)
    ensures r.Some? ==> IsKnownCli(r.value)
  {
    if IsSet(env, "CLAUDE_CODE") then Some(Claude)
    else if IsSet(env, "CURSOR_AGENT") then Some(CursorAgent)
    else if IsSet(env, "CODEX_CLI") then Some(Codex)
    else if IsSet(env, "GEMINI_CLI") then Some(Gemini)
    else if cmdline.None? then None
    else
      var c := Lower(cmdline.value);
      if Contains(c, "claude") then Some(Claude)
      else if Contains(c, "cursor") then Some(CursorAgent)
      else if Contains(c, "codex") then Some(Codex)
      else if Contains(c, "gemini") then Some(Gemini)
      else None
  }

  /** No flag before position `i` of the order is set. */
  predicate NoFlagBefore(env: Env, i: nat)
    requires i <= |EnvOrder|
  {
    forall j :: 0 <= j < i ==> !IsSet(env, EnvOrder[j].0)
  }

  /** No word before position `i` of the order occurs in `c`. */
  predicate NoWordBefore(c: string, i: nat)
    requires i <= |CmdlineOrder|
  {
    forall j :: 0 <= j < i ==> !Contains(c, CmdlineOrder[j].0)
  }

  /** The first environment flag that is set (non-empty) decides, whatever the command line says. */
  lemma DetectFirstFlag(env: Env, cmdline: Option<string>, i: nat)
    requires i < |EnvOrder| && IsSet(env, EnvOrder[i].0) && NoFlagBefore(env, i)
    ensures DetectCallerCli(env, cmdline) == Some(EnvOrder[i].1)
  {
    if i > 0 { assert !IsSet(env, EnvOrder[0].0); }
    if i > 1 { assert !IsSet(env, EnvOrder[1].0); }
    if i > 2 { assert !IsSet(env, EnvOrder[2].0); }
  }

  /** With no flag set, the first word found in the lower-cased command line decides. */
  lemma DetectFirstWord(env: Env, cmdline: string, i: nat)
    requires NoFlagBefore(env, |EnvOrder|)
    requires i < |CmdlineOrder| && Contains(Lower(cmdline), CmdlineOrder[i].0) && NoWordBefore(Lower(cmdline), i)
    ensures DetectCallerCli(env, Some(cmdline)) == Some(CmdlineOrder[i].1)
  {
    assert !IsSet(env, EnvOrder[0].0) && !IsSet(env, EnvOrder[1].0);
    assert !IsSet(env, EnvOrder[2].0) && !IsSet(env, EnvOrder[3].0);
    var c := Lower(cmdline);
    if i > 0 { assert !Contains(c, CmdlineOrder[0].0); }
    if i > 1 { assert !Contains(c, CmdlineOrder[1].0); }
    if i > 2 { assert !Contains(c, CmdlineOrder[2].0); }
  }

  /** Nothing is detected exactly when no flag is set and the command line is
      missing or holds none of the words. */
  lemma DetectNothing(env: Env, cmdline: Option<string>)
    ensures DetectCallerCli(env, cmdline).None? <==>
      NoFlagBefore(env, |EnvOrder|) && (cmdline.None? || NoWordBefore(Lower(cmdline.value), |CmdlineOrder|))
  {
    if NoFlagBefore(env, |EnvOrder|) {
      assert !IsSet(env, EnvOrder[0].0) && !IsSet(env, EnvOrder[1].0);
      assert !IsSet(env, EnvOrder[2].0) && !IsSet(env, EnvOrder[3].0);
    }
    if cmdline.Some? && NoWordBefore(Lower(cmdline.value), |CmdlineOrder|) {
      var c := Lower(cmdline.value);
      assert !Contains(c, CmdlineOrder[0].0) && !Contains(c, CmdlineOrder[1].0);
      assert !Contains(c, CmdlineOrder[2].0) && !Contains(c, CmdlineOrder[3].0);
    }
  }

  /** `resolve_cli(frontmatter_cli, default)`. */
  function ResolveCli(frontmatterCli: Option<string>, env: Env, cmdline: Option<string>, default: string): (r: string)
    ensures IsKnownCli(r) || r == default
  {
    if Given(frontmatterCli) && IsKnownCli(frontmatterCli.value) then
      frontmatterCli.value
    else
      match DetectCallerCli(env, cmdline)
      case Some(detected) => detected
      case None => default
  }

  /** The priority: a known `run-agent` value, then the detected caller, then the default. */
  lemma ResolvePriority(frontmatterCli: Option<string>, env: Env, cmdline: Option<string>, default: string)
    ensures var r := ResolveCli(frontmatterCli, env, cmdline, default);
      && (frontmatterCli.Some? && IsKnownCli(frontmatterCli.value) ==> r == frontmatterCli.value)
      && (!(frontmatterCli.Some? && IsKnownCli(frontmatterCli.value)) && DetectCallerCli(env, cmdline).Some? ==>
            r == DetectCallerCli(env, cmdline).value)
      && (!(frontmatterCli.Some? && IsKnownCli(frontmatterCli.value)) && DetectCallerCli(env, cmdline).None? ==>
            r == default)
  {
  }

  /** A `run-agent` value that names no known CLI is ignored: the result is the
      same as for a definition without one. */
  lemma UnknownFrontmatterIgnored(value: string, env: Env, cmdline: Option<string>, default: string)
    requires !IsKnownCli(value)
    ensures ResolveCli(Some(value), env, cmdline, default) == ResolveCli(None, env, cmdline, default)
  {
  }

  /** The cases the tests of `resolve_cli` pin down, in an environment that names no caller. */
  lemma ResolveExamples()
    ensures ResolveCli(Some("claude"), map[], None, DefaultCli) == "claude"
    ensures ResolveCli(Some("codex"), map[], None, DefaultCli) == "codex"
    ensures ResolveCli(None, map[], None, DefaultCli) == "codex"
    ensures ResolveCli(Some("invalid-cli"), map[], None, DefaultCli) == "codex"
  {
  }

  /** The cases the tests of `detect_caller_cli` pin down. */
  lemma DetectExamples(cmdline: Option<string>)
    ensures DetectCallerCli(map["CLAUDE_CODE" := "1"], cmdline) == Some("claude")
    ensures DetectCallerCli(map["CODEX_CLI" := "1"], cmdline) == Some("codex")
  {
    var env := map["CODEX_CLI" := "1"];
    assert !IsSet(env, "CLAUDE_CODE") && !IsSet(env, "CURSOR_AGENT");
  }

  /** `args.cli or resolve_cli(run_agent_cli)` in `main`: a non-empty `--cli` wins
      and is not checked against the known CLIs. */
  function SelectCli(cliArg: Option<string>, runAgent: Option<string>, env: Env, cmdline: Option<string>): (r: string)
    ensures Given(cliArg) ==> r == cliArg.value
    ensures !Given(cliArg) ==> IsKnownCli(r)
  {
    if Given(cliArg) then cliArg.value else ResolveCli(runAgent, env, cmdline, DefaultCli)
  }
}
