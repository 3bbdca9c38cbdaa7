# sub-agents runner, modelled in Dafny

`skills/sub-agents/scripts/run_subagent.py` runs an "agent" with one of four
coding CLIs (`claude`, `cursor-agent`, `codex`, `gemini`). An agent is a
Markdown or text file whose optional `---` frontmatter may name the CLI in a
`run-agent` key. The runner:

- loads the definition;
- picks the CLI: the `--cli` argument, else a known `run-agent` value, else the
  CLI it was started from (detected from environment flags and the parent's
  command line), else `codex`;
- builds that CLI's argument list, with the system context and the user prompt
  framed into one argument;
- reads the child's standard output line by line through a `StreamProcessor`,
  which unifies the four output formats into one result object and stops at the
  first result;
- classifies the run as `success`, `partial` or `error` in a JSON envelope.

This project models that logic and proves properties of it.

Modules, one per concern of the script:

- `Wrappers`: `Option` and `Result`.
- `Text`: the Python string operations the script relies on, written out.
  - `str.strip` with the `str.isspace` character set, and stripping a given
    character set.
  - `split` and `join`.
  - substring search, lower-casing, slicing a prefix, and integer formatting.
- `Json`: a decoded JSON value, plus `dict.get` and the `AttributeError` message
  that `.get` on a non-dict raises.
- `Environment`: the environment as a map; "set" means present and non-empty.
- `Loader`:
  - `parse_frontmatter`, with the regular expression modelled as an explicit
    backtracking search;
  - `extract_description`;
  - `validate_agent_name`;
  - `get_agents_dir`, with `pathlib` path joining written out;
  - the text part of `load_agent`.
- `Listing`: `list_agents` over given glob listings.
  - It skips stems already seen, so a `.md` file wins over a `.txt` file.
  - It sorts by name.
- `Resolver`: `detect_caller_cli`, `resolve_cli`, and the `--cli` override in `main`.
- `Stream`: the `StreamProcessor`.
  - `Feed` is the specification of one `process_line` call.
  - `Run` is the specification of the readline loop that feeds lines until the
    first `True`.
  - The class `StreamProcessor` has the five fields and is proved against `Feed`.
- `Executor`: `build_command`, the prompt framing, the exit-code and status
  decision, and `execute_agent` as a function of the run's outcome (`Execute`).
  - The readline loop is the method `ReadOutput`.
  - `ExecuteAgent` is the whole call, proved equal to `Execute`.

Inputs of the script's environment are parameters:

- the environment variables;
- the text of `/proc/<ppid>/cmdline`;
- the current directory;
- the files of the agents directory;
- each standard-output line with what `json.loads` makes of it;
- how the child ended: exited with a return code and standard error, timed out,
  or the loop raised.

Behaviour the model makes explicit:

- A JSON value on standard output that is not an object makes `process_line`
  raise `AttributeError`. So does a Codex `item.completed` whose `item` is not an
  object. The raise ends the run as an `error` with exit code 1 and the message
  `'<type>' object has no attribute 'get'` (`Stream.Feed`, `Executor.Execute`).
- A first output line `{}` becomes the processor's result, so reading stops and
  the child is terminated. The empty dict then counts as "no result" in
  `execute_agent`, so the response carries the raw line. It is an `error` unless
  the exit code is 0, even for the -15 of the runner's own termination
  (`Executor.ExecuteEmptyObject`).
- An unknown `--cli` value is not checked by `main`. `build_command` then raises
  `ValueError` before the `try` of `execute_agent`, which `Execute` returns as
  `Err("Unknown CLI: ...")`.
- `validate_agent_name` accepts a name ending in one `"\n"`, because `$` in a
  Python regular expression also matches before a final newline
  (`Loader.TrailingNewlineAccepted`).

## Model

| member | source | states |
|---|---|---|
| Text.TrimEnd | skills/sub-agents/scripts/run_subagent.py:50 | Stripping the right end removes exactly the trailing run of the set: the result is the prefix before that run, and its last character is outside the set. |
| Text.Trim | skills/sub-agents/scripts/run_subagent.py:47-50 | `str.strip(chars)` never lengthens the string, and the result neither starts nor ends with a character of the set. |
| Text.TrimKept | skills/sub-agents/scripts/run_subagent.py:47-50 | The stripped string is the contiguous slice of the input that starts right after the leading run. |
| Text.TrimDropped | skills/sub-agents/scripts/run_subagent.py:47-50 | Everything strip removes, before and after the kept slice, is in the set. |
| Text.TrimEmpty | skills/sub-agents/scripts/run_subagent.py:47-50 | Stripping gives `""` exactly when every character is in the set. |
| Text.TrimIdempotent | skills/sub-agents/scripts/run_subagent.py:50 | Stripping twice is stripping once. |
| Text.StripEmptyIffBlank | skills/sub-agents/scripts/run_subagent.py:232-234 | `line.strip()` is empty exactly when every character is whitespace, which is the `not line` skip of `process_line`. |
| Text.IndexOf | skills/sub-agents/scripts/run_subagent.py:49 | The position `split(":", 1)` cuts at holds the separator, and no earlier position does. |
| Text.Split | skills/sub-agents/scripts/run_subagent.py:46 | `str.split(c)` gives at least one piece, and no piece holds the separator. |
| Text.JoinSplit | skills/sub-agents/scripts/run_subagent.py:46 | Joining the pieces of a split with the separator gives back the string. |
| Text.SplitJoin | skills/sub-agents/scripts/run_subagent.py:46 | Splitting a join of separator-free pieces gives back the pieces. |
| Text.ContainsAt | skills/sub-agents/scripts/run_subagent.py:48 | Python's `in` on strings holds exactly when the substring occurs at some position. |
| Text.LowerFixpoint | skills/sub-agents/scripts/run_subagent.py:180 | Lower-casing leaves no upper-case ASCII letter. It changes a string exactly when the string holds one, so lower-casing twice is lower-casing once. |
| Text.Take | skills/sub-agents/scripts/run_subagent.py:60 | `line[:100]` is a prefix of at most 100 characters, and is the whole line when that is short enough. |
| Text.NatToString | skills/sub-agents/scripts/run_subagent.py:398 | The decimal text of a natural has only digits and no leading zero. |
| Text.NatToStringValue | skills/sub-agents/scripts/run_subagent.py:398 | The decimal text reads back as the number. |
| Text.IntToString | skills/sub-agents/scripts/run_subagent.py:398 | The text of an integer starts with `-` exactly for negatives, followed by the digits of its magnitude. |
| Loader.LastNewline | skills/sub-agents/scripts/run_subagent.py:35-36 | The lazy `(.*?)\n` group can only end at a newline: the match found is a newline, and there is none after it in the range. |
| Loader.WsEnd | skills/sub-agents/scripts/run_subagent.py:35-36 | Greedy `\s*` takes the longest whitespace run: all of it is whitespace, and the next character is not. |
| Loader.CloseBody | skills/sub-agents/scripts/run_subagent.py:35-36 | For a closing `---` at a position, backtracking finds the body start the regex commits to: the largest one that matches, or none when none does. |
| Loader.FirstClose | skills/sub-agents/scripts/run_subagent.py:35-36 | The lazy group ends at the earliest closing `---` line that completes a match. |
| Loader.SearchOpen | skills/sub-agents/scripts/run_subagent.py:35-36 | Every fence found matches the pattern, and no match the engine tries earlier is missed. |
| Loader.FindFence | skills/sub-agents/scripts/run_subagent.py:35-39 | `re.match` with DOTALL: a found fence matches, and it is the one the backtracking order reaches first. |
| Loader.TriedFirstAntisymmetric | skills/sub-agents/scripts/run_subagent.py:35-36 | The backtracking order is antisymmetric, so the match the engine returns is unique. |
| Loader.ParseEntryShape | skills/sub-agents/scripts/run_subagent.py:47-50 | A line is an entry exactly when it holds `:` and its stripped text does not start with `#`. The key has no `:` and no surrounding whitespace. The value starts and ends with no quote. |
| Loader.ColonSurvivesStrip | skills/sub-agents/scripts/run_subagent.py:47-48 | Stripping whitespace keeps every `:`, so the `:` test on the stripped line is the same as on the raw line. |
| Loader.CollectHasKey | skills/sub-agents/scripts/run_subagent.py:46-50 | A key is in the frontmatter dict exactly when some line sets it. |
| Loader.CollectLastWins | skills/sub-agents/scripts/run_subagent.py:46-50 | The value of a key is the one from the last line that sets it. |
| Loader.NoFrontmatter | skills/sub-agents/scripts/run_subagent.py:36-37 | Without a frontmatter block the result is `({}, content)` unchanged. |
| Loader.ParseFrontmatter | skills/sub-agents/scripts/run_subagent.py:30-52 | The method that fills the dict in a loop returns the specification's frontmatter and body. |
| Loader.FillEntries | skills/sub-agents/scripts/run_subagent.py:46-50 | After the loop, the dict is what the lines give, later keys overwriting earlier ones. |
| Loader.AddLine | skills/sub-agents/scripts/run_subagent.py:47-50 | One iteration adds the line's entry, or leaves the dict as it was. |
| Loader.FirstDescriptionIsFirst | skills/sub-agents/scripts/run_subagent.py:55-61 | The description is at most 100 characters. It is `""` exactly when no stripped line is non-empty and not a heading; otherwise it is the first such line, cut to 100 characters. |
| Loader.ExtractDescription | skills/sub-agents/scripts/run_subagent.py:55-61 | The loop with its early return computes the specified description. |
| Loader.ValidateAgentName | skills/sub-agents/scripts/run_subagent.py:64-74 | A name is accepted exactly when `[a-zA-Z0-9][a-zA-Z0-9._-]*` matches all of it, or all of it but one final newline. An accepted name is returned unchanged; a refused one gives `Invalid agent name`. An accepted name starts with no `.` and holds no `/`. |
| Loader.ShapedNameAccepted | skills/sub-agents/scripts/run_subagent.py:64-74 | Every name of the pattern's shape is accepted. |
| Loader.TrailingNewlineAccepted | skills/sub-agents/scripts/run_subagent.py:64-74 | A name of that shape with one `"\n"` appended is accepted too. |
| Loader.LeadingCharacterRejected | skills/sub-agents/scripts/run_subagent.py:64-74 | A name whose first character is not a letter or a digit is rejected, so `_x`, `-x`, `.x` and a lone newline are. |
| Loader.StrayCharacterRejected | skills/sub-agents/scripts/run_subagent.py:64-74 | A name with any other character anywhere, other than a final newline, is rejected. |
| Loader.Components | skills/sub-agents/scripts/run_subagent.py:148 | The components of a POSIX path are exactly the pieces that are neither empty nor `.`: every such piece is kept and no other. |
| Loader.ComponentsAppend | skills/sub-agents/scripts/run_subagent.py:148 | The components keep the order of the pieces: those of a concatenation are the first part's followed by the second's. |
| Loader.AgentsDirPriority | skills/sub-agents/scripts/run_subagent.py:135-151 | The agents directory is, in this order and with empty strings counting as absent: `--agents-dir`, `SUB_AGENTS_DIR`, `.agents` under `--cwd`, `.agents` under the process's directory. |
| Loader.AgentsUnderComponents | skills/sub-agents/scripts/run_subagent.py:148-151 | `Path(p) / ".agents"` keeps the components of `p` and adds `.agents` as the last one. |
| Loader.AgentsUnderRoot | skills/sub-agents/scripts/run_subagent.py:148-151 | `Path(p) / ".agents"` keeps the root of `p`, so an absolute directory gives an absolute path and a relative one a relative path. |
| Loader.AgentsDirCwdExample | tests/test_run_subagent.py:109-111 | With neither `--agents-dir` nor `SUB_AGENTS_DIR`, `--cwd /some/cwd` gives `/some/cwd/.agents`. |
| Loader.RootSplit | skills/sub-agents/scripts/run_subagent.py:148 | The root prefix of a path contributes no component. |
| Loader.ComponentsOfComponents | skills/sub-agents/scripts/run_subagent.py:148 | Normalising the components of a path again changes nothing. |
| Loader.LoadAgent | skills/sub-agents/scripts/run_subagent.py:77-101 | An invalid name is refused before any lookup. A missing definition is reported exactly when neither `<name>.md` nor `<name>.txt` exists. Otherwise the `.md` file wins, and `.txt` is read only when there is no `.md`. |
| Listing.SortByName | skills/sub-agents/scripts/run_subagent.py:132 | The sorted listing is a permutation of the entries, each name at most the next one. |
| Listing.UnseenDistinct | skills/sub-agents/scripts/run_subagent.py:116-122 | The `seen_names` skip leaves entries with pairwise distinct names, none already seen. |
| Listing.FirstFileListed | skills/sub-agents/scripts/run_subagent.py:116-129 | The first file of every stem not yet seen is listed, with its own entry. |
| Listing.ListedFromFirstFile | skills/sub-agents/scripts/run_subagent.py:116-129 | Every listed entry is that of the first file of its stem. |
| Listing.Listing | skills/sub-agents/scripts/run_subagent.py:104-132 | The listing is sorted by name, and no two entries share a name. |
| Listing.MarkdownPreferred | skills/sub-agents/scripts/run_subagent.py:116-122 | A stem with a `.md` file is listed by its first `.md` file, and no other entry has that name. |
| Listing.TextFileFallback | skills/sub-agents/scripts/run_subagent.py:116-122 | A stem with only `.txt` files is listed by its first `.txt` file, and by no other entry. |
| Listing.ListedFromFile | skills/sub-agents/scripts/run_subagent.py:116-132 | Every entry of the sorted listing comes from the first file of its stem, `.md` files before `.txt` files. |
| Listing.AddGlob | skills/sub-agents/scripts/run_subagent.py:117-129 | The inner loop over one glob appends exactly the entries of its files whose stems were not yet seen, in glob order, and `seen_names` becomes the old set plus every stem of the glob. |
| Listing.UnseenAppend | skills/sub-agents/scripts/run_subagent.py:116-129 | Skipping over the `.md` files and then the `.txt` files is one skip over both: the second glob starts with every stem of the first counted as seen. |
| Listing.ListAgents | skills/sub-agents/scripts/run_subagent.py:104-132 | The method with its `seen_names` set and `agents` list returns the specified listing: empty when the directory does not exist. |
| Resolver.DetectCallerCli | skills/sub-agents/scripts/run_subagent.py:159-192 | Detection only ever names one of the four known CLIs. |
| Resolver.DetectFirstFlag | skills/sub-agents/scripts/run_subagent.py:165-172 | The first set flag in the order CLAUDE_CODE, CURSOR_AGENT, CODEX_CLI, GEMINI_CLI decides, whatever the command line says. |
| Resolver.DetectFirstWord | skills/sub-agents/scripts/run_subagent.py:175-190 | With no flag set, the first of `claude`, `cursor`, `codex`, `gemini` found in the lower-cased parent command line decides. |
| Resolver.DetectNothing | skills/sub-agents/scripts/run_subagent.py:159-192 | Nothing is detected exactly when no flag is set and the command line is missing or holds none of the words. |
| Resolver.ResolveCli | skills/sub-agents/scripts/run_subagent.py:195-209 | The resolved CLI is a known one or the default. |
| Resolver.ResolvePriority | skills/sub-agents/scripts/run_subagent.py:195-209 | A known frontmatter value wins, else the detected caller, else the default. |
| Resolver.UnknownFrontmatterIgnored | skills/sub-agents/scripts/run_subagent.py:204-205 | A `run-agent` value naming no known CLI gives the same result as having none. |
| Resolver.ResolveExamples | tests/test_run_subagent.py:114-123 | `claude` and `codex` are kept, and a missing or invalid value falls back to `codex`. |
| Resolver.DetectExamples | tests/test_run_subagent.py:199-208 | CLAUDE_CODE gives `claude` and CODEX_CLI gives `codex`, whatever the command line. |
| Resolver.SelectCli | skills/sub-agents/scripts/run_subagent.py:516 | A non-empty `--cli` is used as given, unchecked. Otherwise the CLI is a known one. |
| Stream.FeedObject | skills/sub-agents/scripts/run_subagent.py:241-291 | On a decoded dict, `True` is returned exactly when a result is set. A raise changes nothing. The part lists grow by at most one. The format flags are never cleared. A dict without `"type"` becomes the result. |
| Stream.Feed | skills/sub-agents/scripts/run_subagent.py:227-291 | Once a result exists, every line is ignored. Blank and undecodable lines change nothing. `True` is returned exactly on the call that sets the result, and a raise changes nothing. A dict without `"type"` becomes the result at once. A non-object JSON value raises. |
| Stream.FeedLatches | skills/sub-agents/scripts/run_subagent.py:232-234 | `process_line` is a no-op returning `False` on every processor that holds a result. |
| Stream.FeedSkipsUndecoded | skills/sub-agents/scripts/run_subagent.py:236-239 | A line that is not JSON is a no-op returning `False`. |
| Stream.Run | skills/sub-agents/scripts/run_subagent.py:358-362 | The loop reads at most all lines. It reads all of them when the output ends first, and at least one when it stopped at a result or a raise. |
| Stream.Trace | skills/sub-agents/scripts/run_subagent.py:227-291 | Feeding lines one by one produces one return value per line. |
| Stream.LatchedIgnoresRest | skills/sub-agents/scripts/run_subagent.py:232-234 | Once latched, any further lines leave the state as it is and all return `False`. |
| Stream.RunStopsAtFirstResult | skills/sub-agents/scripts/run_subagent.py:358-362 | The loop stops right after the first `True` or raise, and every earlier call returned `False`. The state is that of feeding the lines read, and the lines left unread would have changed nothing. |
| Stream.RunUndecoded | skills/sub-agents/scripts/run_subagent.py:236-239 | Output with no JSON line is read to the end and leaves the processor as it was. |
| Stream.RunAfterContinues | skills/sub-agents/scripts/run_subagent.py:358-362 | Lines that all return `False` are read and the loop goes on from the state they leave. |
| Stream.FeedInit | skills/sub-agents/scripts/run_subagent.py:242-244 | Any object whose `type` is `init`, whatever other keys it has, switches on the Gemini format and returns `False`. |
| Stream.FeedThreadStarted | skills/sub-agents/scripts/run_subagent.py:247-249 | Any object whose `type` is `thread.started` switches on the Codex format and returns `False`. |
| Stream.FeedGeminiMessage | skills/sub-agents/scripts/run_subagent.py:252-256 | On a Gemini processor, an assistant message with string content appends that content and returns `False`, whatever other keys it has and whichever other flag is set. |
| Stream.FeedGeminiOtherContent | skills/sub-agents/scripts/run_subagent.py:252-256 | An assistant message whose content is not a string is skipped, and one with no content appends `""`. |
| Stream.GeminiOnlyAssistantMessages | skills/sub-agents/scripts/run_subagent.py:241-291 | The Gemini parts change only on a Gemini processor without a result, by an assistant `message` event. |
| Stream.FeedCodexMessage | skills/sub-agents/scripts/run_subagent.py:259-263 | On a Codex processor, an `item.completed` event whose item is an `agent_message` with string text appends that text, whatever other keys the event or the item carry (such as an `id`). |
| Stream.FeedCodexOtherItem | skills/sub-agents/scripts/run_subagent.py:259-263 | Any other `item.completed` event changes nothing: an item of another type or without string text, or no item at all. An item that is not an object makes `item.get` raise. |
| Stream.CodexOnlyAgentMessages | skills/sub-agents/scripts/run_subagent.py:241-291 | The Codex message list changes only on a Codex processor without a result, by an `agent_message` item with string text, and then by exactly that text; every other event leaves it as it was. |
| Stream.FeedGeminiResult | skills/sub-agents/scripts/run_subagent.py:275-282 | A `result` event on any Gemini processor yields the parts concatenated with no separator, and the event's status, `success` by default. |
| Stream.FeedTurnCompleted | skills/sub-agents/scripts/run_subagent.py:266-273 | `turn.completed` on any Codex processor yields the messages joined by `"\n"`, with status `success`. |
| Stream.FeedPlainResult | skills/sub-agents/scripts/run_subagent.py:275-284 | A `result` event outside the Gemini format is stored as it came. |
| Stream.ReadyOnlyAtTerminal | skills/sub-agents/scripts/run_subagent.py:241-291 | Only a terminal event returns `True`: a `result` event, `turn.completed` on a Codex processor, or an object without `"type"`. |
| Stream.ClaudeResultExample | tests/test_run_subagent.py:127-131 | The single `result` line returns `True`, and its result text is `hello`. |
| Stream.FeedAppendsGemini | skills/sub-agents/scripts/run_subagent.py:252-256 | Every assistant message with string content appends it, on every Gemini processor without a result. |
| Stream.FeedAppendsCodex | skills/sub-agents/scripts/run_subagent.py:259-263 | Every `agent_message` item with string text appends it, on every Codex processor without a result. |
| Stream.GeminiMessagesAppend | skills/sub-agents/scripts/run_subagent.py:252-256 | A run of assistant messages with string content, of any key set, appends their contents in order, each returning `False`. |
| Stream.CodexMessagesAppend | skills/sub-agents/scripts/run_subagent.py:259-263 | A run of `agent_message` items with string text, of any key set, appends their texts in order, each returning `False`. |
| Stream.RunProtocol | skills/sub-agents/scripts/run_subagent.py:358-362 | A stream that opens with a `False` line, continues with `False` lines and ends with a `True` line is read to its last line, which leaves the final state. |
| Stream.GeminiStream | skills/sub-agents/scripts/run_subagent.py:227-291 | `init`, then assistant messages, then `result`, each event with any further keys: every line is read, and the result is the concatenated parts with the event's status. |
| Stream.CodexStream | skills/sub-agents/scripts/run_subagent.py:227-291 | `thread.started`, then agent messages, then `turn.completed`, each with any further keys: every line is read, and the result is the texts joined by `"\n"`. |
| Stream.GeminiExample | tests/test_run_subagent.py:133-144 | The test's Gemini stream yields `part1part2`. |
| Stream.CodexExample | tests/test_run_subagent.py:146-157 | The test's Codex stream yields `msg1\nmsg2`. |
| Stream.CodexUnfinished | skills/sub-agents/scripts/run_subagent.py:259-273 | Codex messages, of any key set, without `turn.completed` are never surfaced: the output is read to its end with no result. |
| Stream.StreamProcessor.constructor | skills/sub-agents/scripts/run_subagent.py:220-225 | A new processor has no result, empty part lists and both flags off. |
| Stream.StreamProcessor.ProcessLine | skills/sub-agents/scripts/run_subagent.py:227-291 | The method updates the five fields, and returns what `Feed` gives for the old state. |
| Stream.StreamProcessor.GetResult | skills/sub-agents/scripts/run_subagent.py:293-294 | It returns the stored result. |
| Executor.BuildCommand | skills/sub-agents/scripts/run_subagent.py:302-321 | An unknown CLI is refused with `Unknown CLI: <cli>`. The program is named like the CLI. The prompt is the last argument, except that `-a <key>` follows it for cursor-agent with `CLI_API_KEY` set. |
| Executor.PromptIsOneArgument | skills/sub-agents/scripts/run_subagent.py:302-321 | Whatever it holds, the prompt is exactly one argument: the commands for two prompts differ only at the prompt's position. |
| Executor.BuildCommandExamples | tests/test_run_subagent.py:160-196 | The exact argument lists of the tests, with and without an API key. |
| Executor.FramePromptParts | skills/sub-agents/scripts/run_subagent.py:338 | The framed prompt can be cut back into the two headers, the context and the prompt. |
| Executor.FramePromptContains | tests/test_run_subagent.py:259-283 | `[System Context]`, the context, `[User Prompt]` and the prompt all occur in the framed prompt. |
| Executor.ExitStatusMeaning | skills/sub-agents/scripts/run_subagent.py:381-389 | After a normal exit, the run is `error` exactly when the code is not 0 and there is no non-empty result, and `partial` exactly when there is a result and the code is neither 0, 143 nor -15. Without a result it is `success` exactly for code 0. |
| Executor.ExitErrorShape | skills/sub-agents/scripts/run_subagent.py:397-401 | The error names the exit code. `": "` and the stripped standard error follow exactly when standard error is not blank. |
| Executor.Execute | skills/sub-agents/scripts/run_subagent.py:324-424 | An unknown CLI raises before anything is spawned. The reply names the CLI, and an `error` always says why. A missing executable gives exit code 127 and `CLI not found`; any other spawn failure, a raise in the loop or a crash after it gives exit code 1 and `error`. A timeout gives 124 and `Timeout after <n>ms`, `partial` with the result's text when a non-empty result was set and `error` otherwise. A normal exit reports `returncode or 0` with the status that code decides. It carries the result's `"result"` text, or with no non-empty result the raw lines read, and `CLI exited with code N[: stderr]` exactly when the status is `error`. |
| Executor.ExecuteIgnoresPrompt | skills/sub-agents/scripts/run_subagent.py:338-343 | For a known CLI the reply does not depend on the system context, the prompt or the environment, which only shape the command. |
| Executor.RespondReady | skills/sub-agents/scripts/run_subagent.py:380-395 | With a non-empty result, a normal exit reports its `"result"` value with no error: `success` for codes 0, 143 and -15, `partial` otherwise. |
| Executor.RespondAtEof | skills/sub-agents/scripts/run_subagent.py:367-402 | Without a result, a normal exit reports the raw output, and is `success` only for code 0. A timeout reports exit code 124 and an error. |
| Executor.ExecuteGeminiStream | skills/sub-agents/scripts/run_subagent.py:324-402 | A complete Gemini stream reports the concatenated parts: after a normal exit with the status the exit code decides, after a timeout as `partial` with exit code 124. |
| Executor.ExecuteCodexStream | skills/sub-agents/scripts/run_subagent.py:324-402 | A complete Codex stream reports the joined messages: after a normal exit with the status the exit code decides, after a timeout as `partial` with exit code 124. |
| Executor.ExecuteCodexUnfinished | skills/sub-agents/scripts/run_subagent.py:367-391 | A Codex stream, of any key set, cut off before `turn.completed` never surfaces its messages. On a timeout it reports exit code 124 and an error with no result; on an exit it reports the raw output. |
| Executor.ExecutePlainOutput | skills/sub-agents/scripts/run_subagent.py:380-402 | Output with no JSON is reported raw. It is a success exactly when the exit code is 0; otherwise an error names the code. |
| Executor.ExecuteEmptyObject | skills/sub-agents/scripts/run_subagent.py:286-291 | A first line `{}` stops the reading. After an exit the response is that raw line, and it is an error unless the exit code is 0; after a timeout it is 124 and the timeout error. |
| Executor.ExecuteTimeoutWithoutResult | skills/sub-agents/scripts/run_subagent.py:367-378 | A timeout in which no line raised and the processor holds no truthy result (no JSON at all, a first `{}` line, or a stream cut off before its closing event) gives exit code 124, status `error` and `Timeout after <n>ms`. |
| Executor.ReadOutput | skills/sub-agents/scripts/run_subagent.py:355-362 | The loop appends each line and feeds the processor, stopping right after the first `True` or raise. Processor and lines end as `Run` says, and the kept lines are the texts of the lines read. |
| Executor.ExecuteAgent | skills/sub-agents/scripts/run_subagent.py:324-424 | The imperative call, with a real processor object and loop, returns exactly what `Execute` specifies. |

## Left out

- Process I/O is not modelled, and how the child ended is a parameter:
  - `subprocess.Popen`;
  - reading the pipes;
  - `terminate`, `kill` and `communicate`;
  - the conversion of the timeout from milliseconds to seconds.
  Neither timing nor termination is claimed: the deadline bounds only
  `communicate`, not the readline loop. An exception raised by the second
  `communicate` after a kill is not modelled either.
- `os.environ`, `os.getppid` and the read of `/proc/<ppid>/cmdline` are
  parameters. A failed read is `None`.
- `json.loads` is not modelled: each line comes with its decoded value, or
  `None`. Floating-point numbers stay as their literal text.
- The `re` engine is not used. The frontmatter pattern and the agent-name
  pattern are written out as explicit predicates and searches.
- The filesystem work of `load_agent` is a map from file names to texts. That
  covers the file lookup and `read_text`.
- The filesystem work of `list_agents` (`exists`, `glob`, `read_text`) is given
  as the two glob listings.
  - A file whose reading raises is given as `None`. Exceptions from parsing are
    not modelled, since the parse functions do not raise.
  - Which files the globs find is part of the input, stems included.
- `main` is not modelled except for the `--cli` override (`Resolver.SelectCli`):
  - argparse;
  - the checks for required arguments, `isabs` and `isdir`;
  - catching `FileNotFoundError`;
  - printing with `json.dumps`;
  - `sys.exit`.
- `Json.NoGetMessage`: uses the type name the runtime would print for each kind
  of JSON value. It is not a general model of Python's exception messages.
- `Executor.Execute`: error messages that Python builds from other exceptions
  (`str(e)` at lines 412 and 424) are parameters, not computed.
- `Text.Lower`: lower-cases ASCII letters only. Python's `str.lower` also maps
  non-ASCII letters, so a command line that spells a CLI name with such letters
  is matched differently.
- `Listing.SortByName`: the sort is an insertion sort. It agrees with Python's
  stable `sorted` here because the names in the listing are distinct, which
  `Listing.Listing` states.
- `Loader.LoadAgent`: `ValueError` for an invalid name and `FileNotFoundError`
  for a missing definition are the two `LoadError` cases. The error message
  text with `repr` of the name is not modelled.
- `Loader.LoadAgent`: the `Path.resolve` containment check (lines 88-91) is not
  modelled, since the file map has no symbolic links. A valid name whose
  `<name>.md` or `<name>.txt` is a symbolic link out of the agents directory
  makes the source raise `ValueError`, while the model reads the file.
- The whole-stream lemmas (`Stream.GeminiStream`, `Stream.CodexStream` and the
  `Executor` lemmas built on them) cover streams made only of the opening
  event, messages, and the closing event. Streams with other events in between
  are handled by `Stream.Feed` and not summed up by a lemma. What such events
  do is stated line by line: `Stream.CodexOnlyAgentMessages` and
  `Stream.GeminiOnlyAssistantMessages` say they add no message, and
  `Stream.ReadyOnlyAtTerminal` says they set no result.
