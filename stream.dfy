/** The stream processor of skills/sub-agents/scripts/run_subagent.py: a line-driven
    state machine that turns the output of any of the four CLIs into one result
    object. `Feed` is the specification of one call of `process_line`; the class
    `StreamProcessor` is the object the runner mutates, proved against `Feed`. */
module Stream {
  import opened Wrappers
  import opened Text
  import opened Json

  /** One line read from the child's standard output: the raw text (with its line
      ending) and what `json.loads` makes of the stripped text, `None` when it
      raises `JSONDecodeError`. */
  datatype Line = Line(text: string, decoded: Option<Json>)

  /** The five fields of a `StreamProcessor`. */
  datatype ProcState = ProcState(
    resultJson: Option<Dict>,
    geminiParts: seq<string>,
    codexMessages: seq<string>,
    isGemini: bool,
    isCodex: bool)

  /** The state right after `StreamProcessor()`. */
  const Initial := ProcState(None, [], [], false, false)

  /** What one call of `process_line` does: return `False`, return `True`, or raise. */
  datatype Signal = Continue | Ready | Raise(message: string)

  /** The line is not blank and decodes to `v`. */
  predicate Carries(line: Line, v: Json) {
    !IsBlank(line.text) && line.decoded == Some(v)
  }

  /** `data.get("type") == t`. */
  predicate TypeIs(d: Dict, t: string) {
    HasString(d, "type", t)
  }

  /** The result object built when a Codex turn completes. */
  function CodexResult(messages: seq<string>): Dict {
    map["type" := JStr("result"), "result" := JStr(Join(messages, "\n")), "status" := JStr("success")]
  }

  /** The result object built from a Gemini `result` event. */
  function GeminiResult(parts: seq<string>, event: Dict): Dict {
    map["type" := JStr("result"), "result" := JStr(Concat(parts)), "status" := GetOr(event, "status", JStr("success"))]
  }

  /** A Gemini assistant message whose content is appended. */
  predicate GeminiAppend(s: ProcState, d: Dict) {
    s.isGemini && TypeIs(d, "message") && HasString(d, "role", "assistant")
  }

  /** A Codex `item.completed` event. */
  predicate CodexItem(s: ProcState, d: Dict) {
    s.isCodex && TypeIs(d, "item.completed")
  }

  /** An item that contributes its text: an `agent_message` whose `text` is a string. */
  predicate AgentMessage(item: Dict) {
    TypeIs(item, "agent_message") && "text" in item && item["text"].JStr?
  }

  /** One call of `process_line` on an unlatched processor and a decoded dict. */
  function FeedObject(s: ProcState, d: Dict): (r: (ProcState, Signal))
    requires s.resultJson.None?
    ensures r.1 == Ready <==> r.0.resultJson.Some?
    ensures r.1.Raise? ==> r.0 == s
    ensures s.geminiParts <= r.0.geminiParts && |r.0.geminiParts| <= |s.geminiParts| + 1
    ensures s.codexMessages <= r.0.codexMessages && |r.0.codexMessages| <= |s.codexMessages| + 1
    ensures (s.isGemini ==> r.0.isGemini) && (s.isCodex ==> r.0.isCodex)
    ensures "type" !in d ==> r == (s.(resultJson := Some(d)), Ready)
  {
    if TypeIs(d, "init") then
      (s.(isGemini := true), Continue)
    else if TypeIs(d, "thread.started") then
      (s.(isCodex := true), Continue)
    else if GeminiAppend(s, d) then
      var content := GetOr(d, "content", JStr(""));
      (if content.JStr? then s.(geminiParts := s.geminiParts + [content.str]) else s, Continue)
    else if CodexItem(s, d) then
      var item := GetOr(d, "item", JObj(map[]));
      if !item.JObj? then
        (s, Raise(NoGetMessage(item)))
      else if AgentMessage(item.fields) then
        (s.(codexMessages := s.codexMessages + [item.fields["text"].str]), Continue)
      else
        (s, Continue)
    else if s.isCodex && TypeIs(d, "turn.completed") then
      (s.(resultJson := Some(CodexResult(s.codexMessages))), Ready)
    else if TypeIs(d, "result") then
      if s.isGemini then
        (s.(resultJson := Some(GeminiResult(s.geminiParts, d))), Ready)
      else
        (s.(resultJson := Some(d)), Ready)
    else if "type" !in d then
      (s.(resultJson := Some(d)), Ready)
    else
      (s, Continue)
  }

  /** One call of `process_line(line)`: the new state and what the call does. */
  function Feed(s: ProcState, line: Line): (r: (ProcState, Signal))
    // once a result exists every line is ignored
    ensures s.resultJson.Some? ==> r == (s, Continue)
    // blank lines and lines that are not JSON change nothing
    ensures IsBlank(line.text) || line.decoded.None? ==> r == (s, Continue)
    // `True` exactly on the call that sets the result
    ensures r.1 == Ready <==> s.resultJson.None? && r.0.resultJson.Some?
    ensures r.1 != Ready ==> r.0.resultJson == s.resultJson
    // a raise leaves every field as it was
    ensures r.1.Raise? ==> r.0 == s
    // the part lists only grow, by at most one element
    ensures s.geminiParts <= r.0.geminiParts && |r.0.geminiParts| <= |s.geminiParts| + 1
    ensures s.codexMessages <= r.0.codexMessages && |r.0.codexMessages| <= |s.codexMessages| + 1
    // the format flags are never cleared
    ensures (s.isGemini ==> r.0.isGemini) && (s.isCodex ==> r.0.isCodex)
    // a JSON object without "type" becomes the result at once
    ensures (s.resultJson.None? && !IsBlank(line.text) && line.decoded.Some? && line.decoded.value.JObj? &&
             "type" !in line.decoded.value.fields) ==>
      r == (s.(resultJson := Some(line.decoded.value.fields)), Ready)
    // a JSON value that is not an object makes `data.get` raise
    ensures s.resultJson.None? && !IsBlank(line.text) && line.decoded.Some? && !line.decoded.value.JObj? ==>
      r == (s, Raise(NoGetMessage(line.decoded.value)))
  {
    if IsBlank(line.text) || s.resultJson.Some? then
      (s, Continue)
    else
      match line.decoded
      case None => (s, Continue)
      case Some(data) =>
        if data.JObj? then FeedObject(s, data.fields) else (s, Raise(NoGetMessage(data)))
  }

  /** Where the driving loop stopped: at the end of the output, after the line that
      made a result ready, or after the line that raised. */
  datatype Stop = AtEof | AtResult | AtRaise(message: string)

  /** The processor state, how many lines were read, and where reading stopped. */
  datatype Drain = Drain(state: ProcState, consumed: nat, stop: Stop)

  /** Shift the line count of a drain by `n` lines already read. */
  function After(n: nat, d: Drain): Drain {
    d.(consumed := d.consumed + n)
  }

  /** A line handler such as `Feed`. The loops below are stated over any handler,
      so that their properties rest only on what each lemma requires of it. */
  type Step = (ProcState, Line) -> (ProcState, Signal)

  /** The handler ignores every line once a result exists, and it returns `True`
      only when it leaves a result. `Feed` is such a handler (`FeedLatches`). */
  ghost predicate Latches(step: Step) {
    forall s: ProcState, line: Line :: (s.resultJson.Some? ==> step(s, line) == (s, Continue)) &&
      (step(s, line).1 == Ready ==> step(s, line).0.resultJson.Some?)
  }

  lemma FeedLatches()
    ensures Latches(Feed)
  {
  }

  /** The readline loop of `execute_agent` with `process_line` as `step`: feed each
      line in turn and stop right after the first one that makes a result ready
      or raises. */
  function Run(step: Step, s: ProcState, lines: seq<Line>): (d: Drain)
    ensures d.consumed <= |lines|
    ensures d.stop.AtEof? ==> d.consumed == |lines|
    ensures !d.stop.AtEof? ==> d.consumed >= 1
    decreases |lines|
  {
    if lines == [] then
      Drain(s, 0, AtEof)
    else
      var (s1, signal) := step(s, lines[0]);
      match signal
      case Ready => Drain(s1, 1, AtResult)
      case Raise(m) => Drain(s1, 1, AtRaise(m))
      case Continue => After(1, Run(step, s1, lines[1..]))
  }

  /** Feed every line, with no early exit: the state and the signals the handler
      would produce if every line were read. */
  function Trace(step: Step, s: ProcState, lines: seq<Line>): (r: (ProcState, seq<Signal>))
    ensures |r.1| == |lines|
    decreases |lines|
  {
    if lines == [] then
      (s, [])
    else
      var (s1, signal) := step(s, lines[0]);
      var (s2, signals) := Trace(step, s1, lines[1..]);
      (s2, [signal] + signals)
  }

  /** Every signal is `Continue`. */
  predicate AllContinue(signals: seq<Signal>) {
    forall j :: 0 <= j < |signals| ==> signals[j] == Continue
  }

  /** One more `Continue` in front keeps a signal list all `Continue`. */
  lemma ContinueThen(signals: seq<Signal>)
    requires AllContinue(signals)
    ensures AllContinue([Continue] + signals)
  {
    forall j | 0 <= j < |signals| + 1 ensures ([Continue] + signals)[j] == Continue {
      if j > 0 {
        assert ([Continue] + signals)[j] == signals[j - 1];
      }
    }
  }

  /** `Trace` over a single line. */
  lemma TraceOne(step: Step, s: ProcState, line: Line)
    ensures Trace(step, s, [line]) == (step(s, line).0, [step(s, line).1])
  {
    assert [line][1..] == [];
    assert Trace(step, step(s, line).0, []) == (step(s, line).0, []);
    assert [step(s, line).1] + [] == [step(s, line).1];
  }

  /** `Run` over a single line whose call returns `True`. */
  lemma RunOneReady(step: Step, s: ProcState, line: Line)
    requires step(s, line).1 == Ready
    ensures Run(step, s, [line]) == Drain(step(s, line).0, 1, AtResult)
  {
  }

  /** One iteration of the loop: read the first line and stop or go on. */
  lemma RunUnfold(step: Step, s: ProcState, lines: seq<Line>)
    requires lines != []
    ensures step(s, lines[0]).1 == Continue ==> Run(step, s, lines) == After(1, Run(step, step(s, lines[0]).0, lines[1..]))
    ensures step(s, lines[0]).1 == Ready ==> Run(step, s, lines) == Drain(step(s, lines[0]).0, 1, AtResult)
    ensures step(s, lines[0]).1.Raise? ==> Run(step, s, lines) == Drain(step(s, lines[0]).0, 1, AtRaise(step(s, lines[0]).1.message))
  {
  }

  /** The lines from `i` on are line `i` followed by the lines from `i + 1` on. */
  lemma DropOne(lines: seq<Line>, i: nat)
    requires i < |lines|
    ensures lines[i..] != [] && lines[i..][0] == lines[i] && lines[i..][1..] == lines[i + 1..]
  {
  }

  /** A latched processor ignores any number of further lines. */
  lemma {:induction false} LatchedIgnoresRest(step: Step, s: ProcState, lines: seq<Line>)
    requires Latches(step) && s.resultJson.Some?
    ensures Trace(step, s, lines).0 == s && AllContinue(Trace(step, s, lines).1)
    decreases |lines|
  {
    if lines != [] {
      assert step(s, lines[0]) == (s, Continue);
      LatchedIgnoresRest(step, s, lines[1..]);
      ContinueThen(Trace(step, s, lines[1..]).1);
    }
  }

  /** The loop stops right after the first line whose call returns `True` (or
      raises), every earlier call returned `False`, the state is that of feeding
      exactly the lines read, and the lines left unread would have changed nothing. */
  lemma {:induction false} RunStopsAtFirstResult(step: Step, s: ProcState, lines: seq<Line>)
    requires Latches(step)
    ensures var d, all := Run(step, s, lines), Trace(step, s, lines).1;
      && (forall j :: 0 <= j < d.consumed - 1 ==> all[j] == Continue)
      && (d.stop.AtEof? ==> AllContinue(all))
      && (d.stop.AtResult? ==> all[d.consumed - 1] == Ready)
      && (d.stop.AtRaise? ==> all[d.consumed - 1] == Raise(d.stop.message))
      && d.state == Trace(step, s, lines[..d.consumed]).0
      && (d.stop.AtResult? ==>
            Trace(step, s, lines).0 == d.state &&
            forall j :: d.consumed <= j < |lines| ==> all[j] == Continue)
    decreases |lines|
  {
    if lines != [] {
      var (s1, signal) := step(s, lines[0]);
      var rest := lines[1..];
      assert lines[..1] == [lines[0]];
      assert Trace(step, s, lines[..1]).0 == s1 by {
        assert lines[..1][1..] == [];
      }
      match signal
      case Ready =>
        LatchedIgnoresRest(step, s1, rest);
        assert Trace(step, s, lines).1 == [Ready] + Trace(step, s1, rest).1;
      case Raise(m) =>
      case Continue =>
        RunStopsAtFirstResult(step, s1, rest);
        var d := Run(step, s1, rest);
        assert lines[..d.consumed + 1][1..] == rest[..d.consumed];
        assert Trace(step, s, lines).1 == [Continue] + Trace(step, s1, rest).1;
    }
  }

  /** The handler ignores every line that is not JSON. `Feed` is such a handler
      (`FeedSkipsUndecoded`). */
  ghost predicate SkipsUndecoded(step: Step) {
    forall s: ProcState, line: Line :: line.decoded.None? ==> step(s, line) == (s, Continue)
  }

  lemma FeedSkipsUndecoded()
    ensures SkipsUndecoded(Feed)
  {
  }

  /** Output without a single JSON line is read to the end and changes nothing. */
  lemma {:induction false} RunUndecoded(step: Step, s: ProcState, lines: seq<Line>)
    requires SkipsUndecoded(step)
    requires forall i :: 0 <= i < |lines| ==> lines[i].decoded.None?
    ensures Run(step, s, lines) == Drain(s, |lines|, AtEof)
    decreases |lines|
  {
    if lines != [] {
      assert step(s, lines[0]) == (s, Continue);
      assert forall i :: 0 <= i < |lines| - 1 ==> lines[1..][i] == lines[i + 1];
      RunUndecoded(step, s, lines[1..]);
    }
  }

  /** Lines whose calls all return `False` can be skipped: the loop over
      `prefix + rest` behaves as the loop over `rest` from the state they leave. */
  lemma {:induction false} RunAfterContinues(step: Step, s: ProcState, prefix: seq<Line>, rest: seq<Line>)
    requires AllContinue(Trace(step, s, prefix).1)
    ensures Run(step, s, prefix + rest) == After(|prefix|, Run(step, Trace(step, s, prefix).0, rest))
    decreases |prefix|
  {
    if prefix != [] {
      var (s1, signal) := step(s, prefix[0]);
      var tail := Trace(step, s1, prefix[1..]).1;
      assert Trace(step, s, prefix).1 == [signal] + tail;
      assert signal == Continue by {
        assert Trace(step, s, prefix).1[0] == signal;
      }
      assert AllContinue(tail) by {
        forall j | 0 <= j < |tail| ensures tail[j] == Continue {
          assert Trace(step, s, prefix).1[j + 1] == tail[j];
        }
      }
      RunAfterContinues(step, s1, prefix[1..], rest);
      var lines := prefix + rest;
      assert lines[0] == prefix[0];
      assert lines[1..] == prefix[1..] + rest;
      assert Run(step, s, lines) == After(1, Run(step, s1, lines[1..]));
      assert Trace(step, s, prefix).0 == Trace(step, s1, prefix[1..]).0;
    } else {
      assert prefix + rest == rest;
    }
  }

  // ---------------------------------------------------------------------------
  // The Gemini and Codex protocols

  /** The line is not blank and decodes to an object. */
  predicate IsObject(line: Line) {
    !IsBlank(line.text) && line.decoded.Some? && line.decoded.value.JObj?
  }

  /** The dict an object line decodes to. */
  function Fields(line: Line): Dict
    requires IsObject(line)
  {
    line.decoded.value.fields
  }

  /** An object line whose `data.get("type")` is `t`, whatever other keys it has. */
  predicate EventLine(line: Line, t: string) {
    IsObject(line) && TypeIs(Fields(line), t)
  }

  /** A Gemini assistant message whose `content` is the string `c`: `type` is
      `message` and `role` is `assistant`, whatever other keys it has. */
  predicate GeminiLine(line: Line, c: string) {
    EventLine(line, "message") && HasString(Fields(line), "role", "assistant") && HasString(Fields(line), "content", c)
  }

  /** A Codex `item.completed` event whose `item` is an object of type
      `agent_message` with the string `text` `t`; either may carry other keys. */
  predicate CodexLine(line: Line, t: string) {
    EventLine(line, "item.completed") && "item" in Fields(line) && Fields(line)["item"].JObj? &&
    TypeIs(Fields(line)["item"].fields, "agent_message") && HasString(Fields(line)["item"].fields, "text", t)
  }

  /** `init` switches on the Gemini format. */
  lemma FeedInit(s: ProcState, line: Line)
    requires s.resultJson.None? && EventLine(line, "init")
    ensures Feed(s, line) == (s.(isGemini := true), Continue)
  {
  }

  /** `thread.started` switches on the Codex format. */
  lemma FeedThreadStarted(s: ProcState, line: Line)
    requires s.resultJson.None? && EventLine(line, "thread.started")
    ensures Feed(s, line) == (s.(isCodex := true), Continue)
  {
    assert !TypeIs(Fields(line), "init");
  }

  /** `result` on a Gemini processor builds the result from the parts. */
  lemma FeedGeminiResult(s: ProcState, line: Line)
    requires s.isGemini && s.resultJson.None? && EventLine(line, "result")
    ensures Feed(s, line) == (s.(resultJson := Some(GeminiResult(s.geminiParts, Fields(line)))), Ready)
  {
    var d := Fields(line);
    assert !TypeIs(d, "init") && !TypeIs(d, "thread.started") && !TypeIs(d, "message");
    assert !TypeIs(d, "item.completed") && !TypeIs(d, "turn.completed");
  }

  /** `result` on a processor that is not in the Gemini format is stored as it
      came: the Claude and cursor-agent output, and a Codex run that ends with one. */
  lemma FeedPlainResult(s: ProcState, line: Line)
    requires !s.isGemini && s.resultJson.None? && EventLine(line, "result")
    ensures Feed(s, line) == (s.(resultJson := Some(Fields(line))), Ready)
  {
    var d := Fields(line);
    assert !TypeIs(d, "init") && !TypeIs(d, "thread.started");
    assert !TypeIs(d, "item.completed") && !TypeIs(d, "turn.completed");
  }

  /** The Claude case the tests pin down: one `result` line on a fresh processor
      returns `True` and its `"result"` is the result text. */
  lemma ClaudeResultExample(line: Line)
    requires Carries(line, JObj(map["type" := JStr("result"), "result" := JStr("hello")]))
    ensures Feed(Initial, line).1 == Ready
    ensures Feed(Initial, line).0.resultJson.Some? && Feed(Initial, line).0.resultJson.value["result"] == JStr("hello")
  {
    var event := map["type" := JStr("result"), "result" := JStr("hello")];
    assert event["type"] == JStr("result");
    FeedPlainResult(Initial, line);
  }

  /** `turn.completed` on a Codex processor builds the result from the messages. */
  lemma FeedTurnCompleted(s: ProcState, line: Line)
    requires s.isCodex && s.resultJson.None? && EventLine(line, "turn.completed")
    ensures Feed(s, line) == (s.(resultJson := Some(CodexResult(s.codexMessages))), Ready)
  {
    var d := Fields(line);
    assert !TypeIs(d, "init") && !TypeIs(d, "thread.started") && !TypeIs(d, "message") && !TypeIs(d, "item.completed");
  }

  /** One assistant message on a Gemini processor appends its content. */
  lemma FeedGeminiMessage(s: ProcState, line: Line, c: string)
    requires s.isGemini && s.resultJson.None? && GeminiLine(line, c)
    ensures Feed(s, line) == (s.(geminiParts := s.geminiParts + [c]), Continue)
  {
    var d := Fields(line);
    assert !TypeIs(d, "init") && !TypeIs(d, "thread.started") && GeminiAppend(s, d);
  }

  /** The other assistant messages on a Gemini processor: content that is not a
      string is skipped, and a missing content appends `""`. */
  lemma FeedGeminiOtherContent(s: ProcState, line: Line)
    requires s.isGemini && s.resultJson.None?
    requires EventLine(line, "message") && HasString(Fields(line), "role", "assistant")
    ensures "content" in Fields(line) && !Fields(line)["content"].JStr? ==> Feed(s, line) == (s, Continue)
    ensures "content" !in Fields(line) ==> Feed(s, line) == (s.(geminiParts := s.geminiParts + [""]), Continue)
  {
    var d := Fields(line);
    assert !TypeIs(d, "init") && !TypeIs(d, "thread.started") && GeminiAppend(s, d);
  }

  /** One agent message on a Codex processor appends its text. */
  lemma FeedCodexMessage(s: ProcState, line: Line, t: string)
    requires s.isCodex && s.resultJson.None? && CodexLine(line, t)
    ensures Feed(s, line) == (s.(codexMessages := s.codexMessages + [t]), Continue)
  {
    var d := Fields(line);
    assert !TypeIs(d, "init") && !TypeIs(d, "thread.started") && !GeminiAppend(s, d) && CodexItem(s, d);
    assert AgentMessage(d["item"].fields);
  }

  /** The other `item.completed` events on a Codex processor: an item that is not
      an agent message with string text, or no item at all, changes nothing, and
      an item that is not an object makes `item.get` raise. */
  lemma FeedCodexOtherItem(s: ProcState, line: Line)
    requires s.isCodex && s.resultJson.None? && EventLine(line, "item.completed")
    ensures "item" !in Fields(line) ==> Feed(s, line) == (s, Continue)
    ensures "item" in Fields(line) && Fields(line)["item"].JObj? && !AgentMessage(Fields(line)["item"].fields) ==>
      Feed(s, line) == (s, Continue)
    ensures "item" in Fields(line) && !Fields(line)["item"].JObj? ==>
      Feed(s, line) == (s, Raise(NoGetMessage(Fields(line)["item"])))
  {
    var d := Fields(line);
    assert !TypeIs(d, "init") && !TypeIs(d, "thread.started") && !GeminiAppend(s, d) && CodexItem(s, d);
    assert !AgentMessage(map[]);
  }

  /** The converse of `FeedCodexMessage`: the Codex message list changes only on a
      Codex processor without a result, by an agent message with string text,
      and then by exactly that text. Every other event, such as `turn.started`,
      `item.started` or a reasoning item, leaves it as it was. */
  lemma CodexOnlyAgentMessages(s: ProcState, line: Line)
    ensures Feed(s, line).0.codexMessages != s.codexMessages ==>
      s.isCodex && s.resultJson.None? &&
      exists t :: CodexLine(line, t) && Feed(s, line).0.codexMessages == s.codexMessages + [t]
  {
    if Feed(s, line).0.codexMessages != s.codexMessages {
      var t := Fields(line)["item"].fields["text"].str;
      assert CodexLine(line, t);
    }
  }

  /** The converse of `FeedGeminiMessage`: the Gemini parts change only on a
      Gemini processor without a result, by an assistant message. */
  lemma GeminiOnlyAssistantMessages(s: ProcState, line: Line)
    ensures Feed(s, line).0.geminiParts != s.geminiParts ==>
      s.isGemini && s.resultJson.None? && EventLine(line, "message") && HasString(Fields(line), "role", "assistant")
  {
  }

  /** Only a terminal event makes a result ready: a `result` event, `turn.completed`
      on a Codex processor, or an object without `"type"`. */
  lemma ReadyOnlyAtTerminal(s: ProcState, line: Line)
    ensures Feed(s, line).1 == Ready ==>
      IsObject(line) &&
      (EventLine(line, "result") || (s.isCodex && EventLine(line, "turn.completed")) || "type" !in Fields(line))
  {
  }

  /** Line `i` is the assistant message with content `contents[i]`. */
  predicate GeminiMessages(lines: seq<Line>, contents: seq<string>) {
    |lines| == |contents| && forall i :: 0 <= i < |lines| ==> GeminiLine(lines[i], contents[i])
  }

  /** Line `i` is the agent message with text `texts[i]`. */
  predicate CodexMessages(lines: seq<Line>, texts: seq<string>) {
    |lines| == |texts| && forall i :: 0 <= i < |lines| ==> CodexLine(lines[i], texts[i])
  }

  /** The handler appends the content of an assistant message on a Gemini
      processor without a result, and returns `False`. */
  ghost predicate AppendsGemini(step: Step) {
    forall s: ProcState, line: Line, c: string {:trigger step(s, line), GeminiLine(line, c)} ::
      s.isGemini && s.resultJson.None? && GeminiLine(line, c) ==>
        step(s, line) == (s.(geminiParts := s.geminiParts + [c]), Continue)
  }

  /** The handler appends the text of an agent message on a Codex processor
      without a result, and returns `False`. */
  ghost predicate AppendsCodex(step: Step) {
    forall s: ProcState, line: Line, t: string {:trigger step(s, line), CodexLine(line, t)} ::
      s.isCodex && s.resultJson.None? && CodexLine(line, t) ==>
        step(s, line) == (s.(codexMessages := s.codexMessages + [t]), Continue)
  }

  lemma FeedAppendsGemini()
    ensures AppendsGemini(Feed)
  {
    forall s: ProcState, line: Line, c: string | s.isGemini && s.resultJson.None? && GeminiLine(line, c)
      ensures Feed(s, line) == (s.(geminiParts := s.geminiParts + [c]), Continue)
    {
      FeedGeminiMessage(s, line, c);
    }
  }

  lemma FeedAppendsCodex()
    ensures AppendsCodex(Feed)
  {
    forall s: ProcState, line: Line, t: string | s.isCodex && s.resultJson.None? && CodexLine(line, t)
      ensures Feed(s, line) == (s.(codexMessages := s.codexMessages + [t]), Continue)
    {
      FeedCodexMessage(s, line, t);
    }
  }

  lemma GeminiMessagesTail(lines: seq<Line>, contents: seq<string>)
    requires lines != [] && GeminiMessages(lines, contents)
    ensures GeminiMessages(lines[1..], contents[1..])
  {
    forall i | 0 <= i < |lines| - 1 ensures GeminiLine(lines[1..][i], contents[1..][i]) {
      assert lines[1..][i] == lines[i + 1] && contents[1..][i] == contents[i + 1];
    }
  }

  /** After `init`, every assistant message with string content is appended,
      in order, and none of them makes a result ready. */
  lemma {:induction false} GeminiMessagesAppend(step: Step, s: ProcState, lines: seq<Line>, contents: seq<string>)
    requires AppendsGemini(step)
    requires s.isGemini && s.resultJson.None?
    requires GeminiMessages(lines, contents)
    ensures Trace(step, s, lines).0 == s.(geminiParts := s.geminiParts + contents)
    ensures AllContinue(Trace(step, s, lines).1)
    decreases |lines|
  {
    if lines != [] {
      var s1 := s.(geminiParts := s.geminiParts + [contents[0]]);
      assert s.geminiParts + contents == s.geminiParts + [contents[0]] + contents[1..];
      assert GeminiLine(lines[0], contents[0]);
      assert step(s, lines[0]) == (s1, Continue);
      GeminiMessagesTail(lines, contents);
      GeminiMessagesAppend(step, s1, lines[1..], contents[1..]);
      ContinueThen(Trace(step, s1, lines[1..]).1);
    }
  }

  lemma CodexMessagesTail(lines: seq<Line>, texts: seq<string>)
    requires lines != [] && CodexMessages(lines, texts)
    ensures CodexMessages(lines[1..], texts[1..])
  {
    forall i | 0 <= i < |lines| - 1 ensures CodexLine(lines[1..][i], texts[1..][i]) {
      assert lines[1..][i] == lines[i + 1] && texts[1..][i] == texts[i + 1];
    }
  }

  /** After `thread.started`, every `agent_message` item is appended, in order,
      and none of them makes a result ready. */
  lemma {:induction false} CodexMessagesAppend(step: Step, s: ProcState, lines: seq<Line>, texts: seq<string>)
    requires AppendsCodex(step)
    requires s.isCodex && s.resultJson.None?
    requires CodexMessages(lines, texts)
    ensures Trace(step, s, lines).0 == s.(codexMessages := s.codexMessages + texts)
    ensures AllContinue(Trace(step, s, lines).1)
    decreases |lines|
  {
    if lines != [] {
      var s1 := s.(codexMessages := s.codexMessages + [texts[0]]);
      assert s.codexMessages + texts == s.codexMessages + [texts[0]] + texts[1..];
      assert CodexLine(lines[0], texts[0]);
      assert step(s, lines[0]) == (s1, Continue);
      CodexMessagesTail(lines, texts);
      CodexMessagesAppend(step, s1, lines[1..], texts[1..]);
      ContinueThen(Trace(step, s1, lines[1..]).1);
    }
  }

  /** A stream made of an opening line whose call returns `False`, lines whose
      calls return `False` too, and a closing line whose call returns `True`: the
      loop reads all of it and ends in the state the closing line leaves. */
  lemma RunProtocol(step: Step, s0: ProcState, lines: seq<Line>)
    requires |lines| >= 2 && step(s0, lines[0]).1 == Continue
    requires var middle := Trace(step, step(s0, lines[0]).0, lines[1..|lines| - 1]);
      AllContinue(middle.1) && step(middle.0, lines[|lines| - 1]).1 == Ready
    ensures Run(step, s0, lines) ==
      Drain(step(Trace(step, step(s0, lines[0]).0, lines[1..|lines| - 1]).0, lines[|lines| - 1]).0, |lines|, AtResult)
  {
    var s1 := step(s0, lines[0]).0;
    var middle := lines[1..|lines| - 1];
    var last := lines[|lines| - 1];
    var s2 := Trace(step, s1, middle).0;
    RunOneReady(step, s2, last);
    RunAfterContinues(step, s1, middle, [last]);
    DropFirstSplitsLast(lines);
  }

  /** The lines after the first are the middle ones and the last one. */
  lemma DropFirstSplitsLast(lines: seq<Line>)
    requires |lines| >= 2
    ensures lines[1..] == lines[1..|lines| - 1] + [lines[|lines| - 1]]
  {
  }

  /** A Gemini stream: `init`, assistant messages, then a `result` event. The loop
      reads every line, and the result is the parts concatenated with no separator,
      with the event's status ("success" when it has none). */
  lemma GeminiStream(lines: seq<Line>, contents: seq<string>)
    requires |lines| >= 2 && EventLine(lines[0], "init")
    requires GeminiMessages(lines[1..|lines| - 1], contents)
    requires EventLine(lines[|lines| - 1], "result")
    ensures Run(Feed, Initial, lines) ==
      Drain(ProcState(Some(GeminiResult(contents, Fields(lines[|lines| - 1]))), contents, [], true, false), |lines|, AtResult)
  {
    var s1 := Initial.(isGemini := true);
    FeedInit(Initial, lines[0]);
    FeedAppendsGemini();
    GeminiMessagesAppend(Feed, s1, lines[1..|lines| - 1], contents);
    var s2 := s1.(geminiParts := contents);
    assert s1.geminiParts + contents == contents;
    FeedGeminiResult(s2, lines[|lines| - 1]);
    RunProtocol(Feed, Initial, lines);
  }

  /** A Codex stream: `thread.started`, agent messages, then `turn.completed`. The
      loop reads every line, and the result is the texts joined by "\n", with
      status "success". */
  lemma CodexStream(lines: seq<Line>, texts: seq<string>)
    requires |lines| >= 2 && EventLine(lines[0], "thread.started")
    requires CodexMessages(lines[1..|lines| - 1], texts)
    requires EventLine(lines[|lines| - 1], "turn.completed")
    ensures Run(Feed, Initial, lines) ==
      Drain(ProcState(Some(CodexResult(texts)), [], texts, false, true), |lines|, AtResult)
  {
    var s1 := Initial.(isCodex := true);
    FeedThreadStarted(Initial, lines[0]);
    FeedAppendsCodex();
    CodexMessagesAppend(Feed, s1, lines[1..|lines| - 1], texts);
    var s2 := s1.(codexMessages := texts);
    assert s1.codexMessages + texts == texts;
    FeedTurnCompleted(s2, lines[|lines| - 1]);
    RunProtocol(Feed, Initial, lines);
  }

  /** The Gemini case the tests pin down: two assistant parts come out concatenated. */
  lemma GeminiExample(a: Line, b: Line, c: Line, d: Line)
    requires EventLine(a, "init")
    requires GeminiLine(b, "part1") && GeminiLine(c, "part2")
    requires EventLine(d, "result")
    ensures var r := Run(Feed, Initial, [a, b, c, d]);
      r.stop == AtResult && r.state.resultJson.Some? && HasString(r.state.resultJson.value, "result", "part1" + "part2")
  {
    var lines := [a, b, c, d];
    var contents := ["part1", "part2"];
    assert GeminiMessages(lines[1..|lines| - 1], contents) by {
      assert lines[1..|lines| - 1] == [b, c];
    }
    assert lines[|lines| - 1] == d;
    GeminiStream(lines, contents);
    ConcatTwo("part1", "part2");
    ResultTexts(contents, Fields(d));
  }

  /** The Codex case the tests pin down: two agent messages come out joined by "\n". */
  lemma CodexExample(a: Line, b: Line, c: Line, d: Line)
    requires EventLine(a, "thread.started")
    requires CodexLine(b, "msg1") && CodexLine(c, "msg2")
    requires EventLine(d, "turn.completed")
    ensures var r := Run(Feed, Initial, [a, b, c, d]);
      r.stop == AtResult && r.state.resultJson.Some? && HasString(r.state.resultJson.value, "result", "msg1" + "\n" + "msg2")
  {
    var lines, texts := [a, b, c, d], ["msg1", "msg2"];
    assert CodexMessages(lines[1..|lines| - 1], texts) by {
      assert lines[1..|lines| - 1] == [b, c];
    }
    assert lines[|lines| - 1] == d;
    CodexStream(lines, texts);
    JoinTwo("msg1", "msg2", "\n");
    ResultTexts(texts, event := map[]);
  }

  lemma JoinTwo(a: string, b: string, sep: string)
    ensures Join([a, b], sep) == a + sep + b
  {
    assert [a, b][1..] == [b];
  }

  lemma ConcatTwo(a: string, b: string)
    ensures Concat([a, b]) == a + b
  {
    JoinTwo(a, b, "");
    assert a + "" == a;
  }

  /** The `"result"` text of the two built result objects. */
  lemma ResultTexts(parts: seq<string>, event: Dict)
    ensures HasString(GeminiResult(parts, event), "result", Concat(parts))
    ensures HasString(CodexResult(parts), "result", Join(parts, "\n"))
  {
  }

  /** A Codex stream that ends before `turn.completed` is read to the end and
      leaves no result: the messages gathered are not surfaced. */
  lemma CodexUnfinished(lines: seq<Line>, texts: seq<string>)
    requires |lines| >= 1 && EventLine(lines[0], "thread.started")
    requires CodexMessages(lines[1..], texts)
    ensures Run(Feed, Initial, lines) == Drain(ProcState(None, [], texts, false, true), |lines|, AtEof)
  {
    var s1 := Initial.(isCodex := true);
    FeedThreadStarted(Initial, lines[0]);
    FeedAppendsCodex();
    CodexMessagesAppend(Feed, s1, lines[1..], texts);
    RunUnfold(Feed, Initial, lines);
    RunAfterContinues(Feed, s1, lines[1..], []);
    assert lines[1..] + [] == lines[1..];
  }

  // ---------------------------------------------------------------------------
  // The object

  /** `StreamProcessor`: the object `execute_agent` feeds line by line. */
  class StreamProcessor {
    var resultJson: Option<Dict>
    var geminiParts: seq<string>
    var codexMessages: seq<string>
    var isGemini: bool
    var isCodex: bool

    /** The five fields as one value. */
    function State(): ProcState
      reads this
    {
      ProcState(resultJson, geminiParts, codexMessages, isGemini, isCodex)
    }

    constructor ()
      ensures State() == Initial
    {
      resultJson := None;
      geminiParts := [];
      codexMessages := [];
      isGemini := false;
      isCodex := false;
    }

    /** `process_line(line)`: returns `Ready` for `True`, `Continue` for `False`,
        and `Raise` where the Python method raises. */
    method ProcessLine(line: Line) returns (signal: Signal)
      modifies this
      ensures (State(), signal) == Feed(old(State()), line)
    {
      if IsBlank(line.text) || resultJson.Some? {
        return Continue;
      }
      if line.decoded.None? {
        return Continue;
      }
      var data := line.decoded.value;
      if !data.JObj? {
        return Raise(NoGetMessage(data));
      }
      var d := data.fields;
      if TypeIs(d, "init") {
        isGemini := true;
        return Continue;
      }
      if TypeIs(d, "thread.started") {
        isCodex := true;
        return Continue;
      }
      if isGemini && TypeIs(d, "message") && HasString(d, "role", "assistant") {
        var content := GetOr(d, "content", JStr(""));
        if content.JStr? {
          geminiParts := geminiParts + [content.str];
        }
        return Continue;
      }
      if isCodex && TypeIs(d, "item.completed") {
        var item := GetOr(d, "item", JObj(map[]));
        if !item.JObj? {
          return Raise(NoGetMessage(item));
        }
        if TypeIs(item.fields, "agent_message") && "text" in item.fields && item.fields["text"].JStr? {
          codexMessages := codexMessages + [item.fields["text"].str];
        }
        return Continue;
      }
      if isCodex && TypeIs(d, "turn.completed") {
        resultJson := Some(CodexResult(codexMessages));
        return Ready;
      }
      if TypeIs(d, "result") {
        if isGemini {
          resultJson := Some(GeminiResult(geminiParts, d));
        } else {
          resultJson := Some(d);
        }
        return Ready;
      }
      if "type" !in d {
        resultJson := Some(d);
        return Ready;
      }
      return Continue;
    }

    /** `get_result()`. */
    method GetResult() returns (r: Option<Dict>)
      ensures r == resultJson
    {
      r := resultJson;
    }
  }
}
