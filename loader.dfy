/** The agent loader of skills/sub-agents/scripts/run_subagent.py: the frontmatter
    block of an agent definition, its description line, the agent-name check, the
    choice of the agents directory, and the lookup of a definition by name. */
module Loader {
  import opened Wrappers
  import opened Text
  import opened Environment

  // ---------------------------------------------------------------------------
  // The frontmatter pattern `^---\s*\n(.*?)\n---\s*\n(.*)$`, matched with
  // `re.DOTALL`: a match is described by where group 1 starts and ends and where
  // group 2 starts (group 2 always runs to the end of the content).

  /** Three dashes start at index `i`. */
  predicate Dashes(s: string, i: nat) {
    i + 3 <= |s| && s[i] == '-' && s[i + 1] == '-' && s[i + 2] == '-'
  }

  /** `\s*\n` matches `s[lo..hi]`. */
  predicate WsLine(s: string, lo: nat, hi: nat) {
    lo < hi <= |s| && AllIn(s, lo, hi, Whitespace) && s[hi - 1] == '\n'
  }

  /** `\n---\s*\n` matches `s[close..body]`. */
  predicate Closes(s: string, close: nat, body: nat) {
    close < |s| && s[close] == '\n' && Dashes(s, close + 1) && WsLine(s, close + 4, body)
  }

  /** A way for the pattern to match: group 1 is `s[open..close]`, group 2 is `s[body..]`. */
  datatype Fence = Fence(open: nat, close: nat, body: nat)

  /** The pattern matches `s` in the way `f` describes. */
  predicate IsFence(s: string, f: Fence) {
    Dashes(s, 0) && WsLine(s, 3, f.open) && f.open <= f.close && Closes(s, f.close, f.body)
  }

  /** The backtracking matcher tries `f` no later than `g`: the first `\s*` is
      greedy (a later `open` first), the lazy group is shortest first (an earlier
      `close` first), and the second `\s*` is greedy again (a later `body` first). */
  predicate TriedFirst(f: Fence, g: Fence) {
    f.open > g.open ||
    (f.open == g.open && (f.close < g.close || (f.close == g.close && f.body >= g.body)))
  }

  /** The last newline in `s[lo..hi]`. */
  function LastNewline(s: string, lo: nat, hi: nat): (r: Option<nat>)
    requires lo <= hi <= |s|
    ensures r.Some? ==> lo <= r.value < hi && s[r.value] == '\n'
    ensures forall k :: (if r.Some? then r.value + 1 else lo) <= k < hi ==> s[k] != '\n'
    decreases hi
  {
    if hi == lo then None
    else if s[hi - 1] == '\n' then Some(hi - 1)
    else LastNewline(s, lo, hi - 1)
  }

  /** The end of the longest run of whitespace that starts at `i`. */
  function WsEnd(s: string, i: nat): (e: nat)
    requires i <= |s|
    ensures i <= e <= |s| && AllIn(s, i, e, Whitespace)
    ensures e < |s| ==> s[e] !in Whitespace
    decreases |s| - i
  {
    if i < |s| && s[i] in Whitespace then WsEnd(s, i + 1) else i
  }

  /** Where group 2 starts when the closing delimiter begins at `c`: the greedy
      `\s*` backs off to the last newline of the whitespace run. */
  function CloseBody(s: string, c: nat): (r: Option<nat>)
    ensures r.Some? ==> Closes(s, c, r.value)
    ensures r.Some? ==> forall b: nat :: Closes(s, c, b) ==> b <= r.value
    ensures r.None? ==> forall b: nat :: !Closes(s, c, b)
  {
    if c < |s| && s[c] == '\n' && Dashes(s, c + 1) then
      var e := WsEnd(s, c + 4);
      match LastNewline(s, c + 4, e)
      case Some(j) =>
        assert AllIn(s, c + 4, j + 1, Whitespace);
        Some(j + 1)
      case None => None
    else
      None
  }

  /** The first closing delimiter at or after `from`, with its group 2 start. */
  function FirstClose(s: string, from: nat): (r: Option<(nat, nat)>)
    ensures r.Some? ==> from <= r.value.0 && Closes(s, r.value.0, r.value.1)
    ensures r.Some? ==> forall b: nat :: Closes(s, r.value.0, b) ==> b <= r.value.1
    ensures forall c: nat, b: nat :: from <= c && Closes(s, c, b) ==> r.Some? && r.value.0 <= c
    decreases |s| - from
  {
    if from >= |s| then
      None
    else
      match CloseBody(s, from)
      case Some(b) => Some((from, b))
      case None => FirstClose(s, from + 1)
  }

  /** The backtracking search over the newlines of the whitespace after the opening
      dashes that lie before `hi`, latest first. */
  function SearchOpen(s: string, hi: nat): (r: Option<Fence>)
    requires Dashes(s, 0) && 3 <= hi <= |s| && AllIn(s, 3, hi, Whitespace)
    ensures r.Some? ==> IsFence(s, r.value)
    ensures forall f :: IsFence(s, f) && f.open <= hi ==> r.Some? && TriedFirst(r.value, f)
    decreases hi
  {
    match LastNewline(s, 3, hi)
    case None => None
    case Some(j) =>
      match FirstClose(s, j + 1)
      case Some((c, b)) =>
        assert AllIn(s, 3, j + 1, Whitespace);
        Some(Fence(j + 1, c, b))
      case None =>
        SearchOpen(s, j)
  }

  /** `re.match` of the frontmatter pattern: the match the backtracking matcher
      finds first, or `None` when the pattern cannot match at all. */
  function FindFence(s: string): (r: Option<Fence>)
    ensures r.Some? ==> IsFence(s, r.value)
    ensures forall f :: IsFence(s, f) ==> r.Some? && TriedFirst(r.value, f)
  {
    if Dashes(s, 0) then SearchOpen(s, WsEnd(s, 3)) else None
  }

  /** The matcher's choice is the first in its order, so no other match is equal to it
      in that order and different from it. */
  lemma TriedFirstAntisymmetric(f: Fence, g: Fence)
    requires TriedFirst(f, g) && TriedFirst(g, f)
    ensures f == g
  {
  }

  // ---------------------------------------------------------------------------
  // `key: value` lines

  /** A `key: value` line, split at its first `:`. */
  datatype Entry = Entry(key: string, value: string)

  /** What the loop body makes of one line: `None` when it is skipped. */
  function ParseEntry(line: string): Option<Entry> {
    var t := Strip(line);
    if ':' in t && !(|t| > 0 && t[0] == '#') then
      var i := IndexOf(t, ':');
      Some(Entry(Strip(t[..i]), Trim(Strip(t[i + 1..]), Quotes)))
    else
      None
  }

  /** A line is skipped unless it holds a `:` and, once stripped, does not start
      with `#`. The key holds no `:` and no surrounding whitespace, and the value
      neither starts nor ends with a quote character. */
  lemma ParseEntryShape(line: string)
    ensures var r := ParseEntry(line);
      && (r.Some? <==> ':' in line && !(|Strip(line)| > 0 && Strip(line)[0] == '#'))
      && (r.Some? ==> ':' !in r.value.key && Strip(r.value.key) == r.value.key)
      && (r.Some? ==> var v := r.value.value; v == [] || (v[0] !in Quotes && v[|v| - 1] !in Quotes))
  {
    ColonSurvivesStrip(line);
    var t := Strip(line);
    if ':' in t && !(|t| > 0 && t[0] == '#') {
      TrimIdempotent(t[..IndexOf(t, ':')], Whitespace);
    }
  }

  /** Stripping whitespace keeps every `:`. */
  lemma ColonSurvivesStrip(line: string)
    ensures ':' in Strip(line) <==> ':' in line
  {
    var t := Strip(line);
    var lead := LeadingRun(line, Whitespace);
    TrimKept(line, Whitespace);
    TrimDropped(line, Whitespace);
    ColonIsNotWhitespace();
    if ':' in line {
      var k :| 0 <= k < |line| && line[k] == ':';
      assert lead <= k < lead + |t|;
      SliceAt(line, lead, lead + |t|, k);
    }
  }

  lemma ColonIsNotWhitespace()
    ensures ':' !in Whitespace
  {
  }

  /** The entry sets `key`. */
  predicate Sets(e: Option<Entry>, key: string) {
    e.Some? && e.value.key == key
  }

  /** The dictionary the loop builds from the entries, in order. */
  function Collect(entries: seq<Option<Entry>>): map<string, string> {
    if entries == [] then
      map[]
    else
      CollectStep(Collect(entries[..|entries| - 1]), entries[|entries| - 1])
  }

  /** One iteration of the loop: an entry sets its key, a skipped line changes nothing. */
  function CollectStep(m: map<string, string>, e: Option<Entry>): map<string, string> {
    if e.Some? then m[e.value.key := e.value.value] else m
  }

  /** A key is present exactly when some entry sets it. */
  lemma {:induction false} CollectHasKey(entries: seq<Option<Entry>>, key: string)
    ensures key in Collect(entries) <==> exists i :: 0 <= i < |entries| && Sets(entries[i], key)
    decreases |entries|
  {
    if entries != [] {
      var n := |entries| - 1;
      var init := entries[..n];
      CollectHasKey(init, key);
      if !Sets(entries[n], key) {
        if exists i :: 0 <= i < |entries| && Sets(entries[i], key) {
          var i :| 0 <= i < |entries| && Sets(entries[i], key);
          assert i < n && init[i] == entries[i];
        }
        if exists i :: 0 <= i < n && Sets(init[i], key) {
          var i :| 0 <= i < n && Sets(init[i], key);
          assert init[i] == entries[i];
        }
      }
    }
  }

  /** A key holds the value of the last entry that sets it: later keys overwrite
      earlier ones. */
  lemma {:induction false} CollectLastWins(entries: seq<Option<Entry>>, key: string, i: nat)
    requires i < |entries| && Sets(entries[i], key)
    requires forall j :: i < j < |entries| ==> !Sets(entries[j], key)
    ensures key in Collect(entries) && Collect(entries)[key] == entries[i].value.value
    decreases |entries|
  {
    var n := |entries| - 1;
    var init := entries[..n];
    if i < n {
      assert !Sets(entries[n], key);
      forall j | i < j < n ensures !Sets(init[j], key) {
        assert init[j] == entries[j];
      }
      assert init[i] == entries[i];
      CollectLastWins(init, key, i);
    }
  }

  /** The entry of every line. */
  function ParseEntries(lines: seq<string>): (r: seq<Option<Entry>>)
    ensures |r| == |lines| && forall i :: 0 <= i < |lines| ==> r[i] == ParseEntry(lines[i])
  {
    seq(|lines|, i requires 0 <= i < |lines| => ParseEntry(lines[i]))
  }

  /** The dictionary built from the lines of the block. */
  function Entries(lines: seq<string>): map<string, string> {
    Collect(ParseEntries(lines))
  }

  /** What `parse_frontmatter` returns: the dictionary and the body. */
  datatype Parsed = Parsed(frontmatter: map<string, string>, body: string)

  /** `parse_frontmatter(content)`. */
  function Frontmatter(content: string): Parsed {
    match FindFence(content)
    case None => Parsed(map[], content)
    case Some(f) => Parsed(Entries(Split(content[f.open..f.close], '\n')), content[f.body..])
  }

  /** Content that the pattern does not match comes back whole, with no keys. */
  lemma NoFrontmatter(content: string)
    requires forall f :: !IsFence(content, f)
    ensures Frontmatter(content) == Parsed(map[], content)
  {
  }

  /** `parse_frontmatter`: find the block, then fill the dictionary from its lines. */
  method ParseFrontmatter(content: string) returns (frontmatter: map<string, string>, body: string)
    ensures Parsed(frontmatter, body) == Frontmatter(content)
  {
    var m := FindFence(content);
    if m.None? {
      return map[], content;
    }
    var f := m.value;
    frontmatter := FillEntries(Split(content[f.open..f.close], '\n'));
    body := content[f.body..];
  }

  /** The loop of `parse_frontmatter` over the lines of the block. */
  method FillEntries(lines: seq<string>) returns (frontmatter: map<string, string>)
    ensures frontmatter == Entries(lines)
  {
    ghost var entries := ParseEntries(lines);
    frontmatter := map[];
    var i := 0;
    while i < |lines|
      invariant 0 <= i <= |lines|
      invariant frontmatter == Collect(entries[..i])
    {
      assert entries[..i + 1][..i] == entries[..i];
      frontmatter := AddLine(frontmatter, lines[i]);
      i := i + 1;
    }
    assert entries[..i] == entries;
  }

  /** The body of that loop for one line: strip it, and if it holds a `:` and is not
      a comment, set the key before the first `:` to the value after it. */
  method AddLine(frontmatter: map<string, string>, line: string) returns (m: map<string, string>)
    ensures m == CollectStep(frontmatter, ParseEntry(line))
  {
    var t := Strip(line);
    m := frontmatter;
    if ':' in t && !(|t| > 0 && t[0] == '#') {
      var k := IndexOf(t, ':');
      assert ParseEntry(line) == Some(Entry(Strip(t[..k]), Trim(Strip(t[k + 1..]), Quotes)));
      m := m[Strip(t[..k]) := Trim(Strip(t[k + 1..]), Quotes)];
    } else {
      assert ParseEntry(line) == None;
    }
  }

  // ---------------------------------------------------------------------------
  // The description line

  /** A stripped line that can serve as the description: not empty, not a heading. */
  predicate Describes(t: string) {
    t != [] && t[0] != '#'
  }

  /** The first line that describes, stripped and cut to 100 characters. */
  function FirstDescription(lines: seq<string>): string {
    if lines == [] then ""
    else if Describes(Strip(lines[0])) then Take(Strip(lines[0]), 100)
    else FirstDescription(lines[1..])
  }

  /** `extract_description(body)`. */
  function Description(body: string): string {
    FirstDescription(Split(Strip(body), '\n'))
  }

  /** The description is the first describing line, cut to 100 characters, and it
      is empty exactly when no line describes. */
  lemma {:induction false} FirstDescriptionIsFirst(lines: seq<string>)
    ensures |FirstDescription(lines)| <= 100
    ensures FirstDescription(lines) == "" <==> forall i :: 0 <= i < |lines| ==> !Describes(Strip(lines[i]))
    ensures forall i :: (0 <= i < |lines| && Describes(Strip(lines[i])) &&
      (forall j :: 0 <= j < i ==> !Describes(Strip(lines[j])))) ==>
        FirstDescription(lines) == Take(Strip(lines[i]), 100)
  {
    if lines != [] {
      FirstDescriptionIsFirst(lines[1..]);
      forall i | 0 < i < |lines| ensures lines[1..][i - 1] == lines[i] {
      }
      if Describes(Strip(lines[0])) {
        assert Take(Strip(lines[0]), 100)[0] == Strip(lines[0])[0];
      }
    }
  }

  /** `extract_description`: the loop with its early return. */
  method ExtractDescription(body: string) returns (description: string)
    ensures description == Description(body)
  {
    var lines := Split(Strip(body), '\n');
    var i := 0;
    while i < |lines|
      invariant 0 <= i <= |lines|
      invariant FirstDescription(lines[i..]) == FirstDescription(lines)
    {
      var line := Strip(lines[i]);
      if line != [] && line[0] != '#' {
        return Take(line, 100);
      }
      assert lines[i..][1..] == lines[i + 1..];
      i := i + 1;
    }
    return "";
  }

  // ---------------------------------------------------------------------------
  // Agent names

  /** A character that may start a name: `[a-zA-Z0-9]`. */
  predicate NameStart(c: char) {
    'a' <= c <= 'z' || 'A' <= c <= 'Z' || '0' <= c <= '9'
  }

  /** A character that may follow: `[a-zA-Z0-9._-]`. */
  predicate NameChar(c: char) {
    NameStart(c) || c == '.' || c == '_' || c == '-'
  }

  /** `[a-zA-Z0-9][a-zA-Z0-9._-]*` matches all of `s`. */
  predicate NameShape(s: string) {
    |s| >= 1 && NameStart(s[0]) && forall i :: 1 <= i < |s| ==> NameChar(s[i])
  }

  /** The `ValueError` of an invalid name; its message is
      `"Invalid agent name: " + repr(name)`. */
  datatype NameError = InvalidAgentName(name: string)

  /** `validate_agent_name`. The pattern ends in `$`, which Python also matches
      just before a final newline, so one trailing `"\n"` is let through. */
  function ValidateAgentName(name: string): (r: Result<string, NameError>)
    ensures r.Ok? ==> r.value == name
    ensures r.Err? ==> r.error == InvalidAgentName(name)
    // an accepted name is not empty, does not start with '.', and has no '/'
    ensures r.Ok? ==> |name| >= 1 && name[0] != '.' && '/' !in name
    // every character comes from the class, except perhaps one final newline
    ensures r.Ok? ==> forall i :: 0 <= i < |name| ==> NameChar(name[i]) || (i == |name| - 1 && name[i] == '\n')
    // accepted exactly when the pattern matches the whole name, or all of it but a final newline
    ensures r.Ok? <==> NameShape(name) || (|name| >= 2 && name[|name| - 1] == '\n' && NameShape(name[..|name| - 1]))
  {
    if name == [] then
      Err(InvalidAgentName(name))
    else if NameShape(name) || (name[|name| - 1] == '\n' && NameShape(name[..|name| - 1])) then
      Ok(name)
    else
      Err(InvalidAgentName(name))
  }

  /** Every name of the right shape is accepted. */
  lemma ShapedNameAccepted(name: string)
    requires NameShape(name)
    ensures ValidateAgentName(name) == Ok(name)
  {
  }

  /** A name with one trailing newline is accepted too. */
  lemma TrailingNewlineAccepted(name: string)
    requires NameShape(name)
    ensures ValidateAgentName(name + "\n") == Ok(name + "\n")
  {
    assert (name + "\n")[..|name|] == name;
  }

  /** A name whose first character is not a letter or a digit is rejected, so
      `_x`, `-x`, `.x` and a lone newline are. */
  lemma LeadingCharacterRejected(name: string)
    requires |name| >= 1 && !NameStart(name[0])
    ensures ValidateAgentName(name) == Err(InvalidAgentName(name))
  {
    if |name| >= 2 {
      assert name[..|name| - 1][0] == name[0];
    }
  }

  /** A name with any character outside the class, other than one final newline,
      is rejected. */
  lemma StrayCharacterRejected(name: string, i: nat)
    requires i < |name| && !NameChar(name[i]) && !(i == |name| - 1 && name[i] == '\n')
    ensures ValidateAgentName(name) == Err(InvalidAgentName(name))
  {
  }

  // ---------------------------------------------------------------------------
  // The agents directory

  /** The components of a POSIX path: the non-empty pieces between slashes, without `.`. */
  function Components(parts: seq<string>): (r: seq<string>)
    ensures |r| <= |parts|
    ensures forall i :: 0 <= i < |r| ==> r[i] != "" && r[i] != "."
    // every other piece is kept
    ensures forall p :: p in r <==> p in parts && p != "" && p != "."
  {
    if parts == [] then []
    else if parts[0] == "" || parts[0] == "." then Components(parts[1..])
    else [parts[0]] + Components(parts[1..])
  }

  /** The components keep the order of the pieces: those of a concatenation are
      the components of the first part followed by those of the second. */
  lemma {:induction false} ComponentsAppend(a: seq<string>, b: seq<string>)
    ensures Components(a + b) == Components(a) + Components(b)
    decreases |a|
  {
    if a == [] {
      assert a + b == b;
    } else {
      assert (a + b)[0] == a[0] && (a + b)[1..] == a[1..] + b;
      ComponentsAppend(a[1..], b);
    }
  }

  /** The root of a POSIX path: exactly two leading slashes are kept, one or three
      and more become one slash. */
  function Root(p: string): string {
    if |p| >= 2 && p[0] == '/' && p[1] == '/' && (|p| == 2 || p[2] != '/') then "//"
    else if |p| >= 1 && p[0] == '/' then "/"
    else ""
  }

  /** `str(Path(p) / ".agents")`. */
  function AgentsUnder(p: string): string {
    Root(p) + Join(Components(Split(p, '/')) + [".agents"], "/")
  }

  /** `get_agents_dir(args_agents_dir, args_cwd)` with the environment and
      `Path.cwd()` passed in. */
  function AgentsDir(agentsDirArg: Option<string>, cwdArg: Option<string>, env: Env, processCwd: string): string {
    if Given(agentsDirArg) then agentsDirArg.value
    else if IsSet(env, "SUB_AGENTS_DIR") then env["SUB_AGENTS_DIR"]
    else if Given(cwdArg) then AgentsUnder(cwdArg.value)
    else AgentsUnder(processCwd)
  }

  /** The priority: an `--agents-dir` argument, then `SUB_AGENTS_DIR`, then the
      `.agents` directory under `--cwd`, then under the process's directory; an
      empty string counts as absent. */
  lemma AgentsDirPriority(agentsDirArg: Option<string>, cwdArg: Option<string>, env: Env, processCwd: string)
    ensures var d := AgentsDir(agentsDirArg, cwdArg, env, processCwd);
      && (Given(agentsDirArg) ==> d == agentsDirArg.value)
      && (!Given(agentsDirArg) && IsSet(env, "SUB_AGENTS_DIR") ==> d == env["SUB_AGENTS_DIR"])
      && (!Given(agentsDirArg) && !IsSet(env, "SUB_AGENTS_DIR") && Given(cwdArg) ==> d == AgentsUnder(cwdArg.value))
      && (!Given(agentsDirArg) && !IsSet(env, "SUB_AGENTS_DIR") && !Given(cwdArg) ==> d == AgentsUnder(processCwd))
  {
  }

  /** The `.agents` path keeps the components of the directory it is under and adds
      `.agents` as the last one. */
  lemma AgentsUnderComponents(p: string)
    ensures Components(Split(AgentsUnder(p), '/')) == Components(Split(p, '/')) + [".agents"]
  {
    var parts := Split(p, '/');
    ComponentsWithout(parts, '/');
    var cs := Components(parts) + [".agents"];
    assert |cs| >= 1;
    assert forall i :: 0 <= i < |cs| ==> '/' !in cs[i];
    SplitJoin(cs, '/');
    RootSplit(Root(p), Join(cs, "/"));
    ComponentsOfComponents(cs);
  }

  /** Components of pieces without a character are without it too. */
  lemma ComponentsWithout(parts: seq<string>, c: char)
    requires forall i :: 0 <= i < |parts| ==> c !in parts[i]
    ensures forall i :: 0 <= i < |Components(parts)| ==> c !in Components(parts)[i]
  {
    var r := Components(parts);
    forall i | 0 <= i < |r| ensures c !in r[i] {
      assert r[i] in parts;
    }
  }

  /** `Path(p) / ".agents"` keeps the root of `p`: an absolute directory gives an
      absolute path and a relative one a relative path. */
  lemma AgentsUnderRoot(p: string)
    ensures Root(AgentsUnder(p)) == Root(p)
  {
    var parts := Split(p, '/');
    ComponentsWithout(parts, '/');
    var cs := Components(parts) + [".agents"];
    assert cs[0] != "" && '/' !in cs[0];
    var j := Join(cs, "/");
    assert j != [] && j[0] == cs[0][0] && j[0] != '/';
    var r := Root(p);
    assert AgentsUnder(p) == r + j;
    if r == "//" {
      assert (r + j)[2] == j[0];
    } else if r == "/" {
      assert (r + j)[1] == j[0];
    } else {
      assert r + j == j;
    }
  }

  /** The fallback the tests pin down: with neither `--agents-dir` nor
      `SUB_AGENTS_DIR`, the directory for `--cwd /some/cwd` is `/some/cwd/.agents`. */
  lemma AgentsDirCwdExample(env: Env, processCwd: string)
    requires !IsSet(env, "SUB_AGENTS_DIR")
    ensures AgentsDir(None, Some("/some/cwd"), env, processCwd) == "/some/cwd/.agents"
  {
    AgentsUnderExample();
  }

  /** `str(Path("/some/cwd") / ".agents")`. */
  lemma AgentsUnderExample()
    ensures AgentsUnder("/some/cwd") == "/some/cwd/.agents"
  {
    SplitExample();
    ComponentsExample();
    assert ["some", "cwd"] + [".agents"] == ["some", "cwd", ".agents"];
    JoinExample();
    RootExample();
    SlashInFront();
  }

  lemma SlashInFront()
    ensures "/" + "some/cwd/.agents" == "/some/cwd/.agents"
  {
  }

  lemma ComponentsExample()
    ensures Components(["", "some", "cwd"]) == ["some", "cwd"]
  {
    var parts := ["", "some", "cwd"];
    assert parts[1..] == ["some", "cwd"] && parts[1..][1..] == ["cwd"] && parts[1..][1..][1..] == [];
    assert Components(["cwd"]) == ["cwd"];
  }

  lemma RootExample()
    ensures Root("/some/cwd") == "/"
  {
    var p := "/some/cwd";
    assert p[0] == '/' && p[1] == 's';
  }

  /** `"/some/cwd".split("/")`. */
  lemma SplitExample()
    ensures Split("/some/cwd", '/') == ["", "some", "cwd"]
  {
    var parts := ["", "some", "cwd"];
    assert parts[1..] == ["some", "cwd"] && parts[1..][1..] == ["cwd"];
    assert Join(parts, "/") == "/some/cwd";
    assert '/' !in "some" && '/' !in "cwd";
    SplitJoin(parts, '/');
  }

  /** `"/".join(["some", "cwd", ".agents"])`. */
  lemma JoinExample()
    ensures Join(["some", "cwd", ".agents"], "/") == "some/cwd/.agents"
  {
    var cs := ["some", "cwd", ".agents"];
    assert cs[1..] == ["cwd", ".agents"] && cs[1..][1..] == [".agents"];
  }

  /** Splitting a root in front of a joined path gives only empty pieces in front. */
  lemma RootSplit(root: string, rest: string)
    requires root == "" || root == "/" || root == "//"
    ensures Components(Split(root + rest, '/')) == Components(Split(rest, '/'))
  {
    if root == "/" {
      SplitAfterSlash(rest);
    } else if root == "//" {
      assert root + rest == "/" + ("/" + rest);
      SplitAfterSlash("/" + rest);
      SplitAfterSlash(rest);
    } else {
      assert root + rest == rest;
    }
  }

  /** A leading slash adds one empty piece in front. */
  lemma SplitAfterSlash(rest: string)
    ensures Split("/" + rest, '/') == [""] + Split(rest, '/')
  {
    var s := "/" + rest;
    assert IndexOf(s, '/') == 0;
    assert s[1..] == rest;
  }

  /** Components that are already components stay as they are. */
  lemma {:induction false} ComponentsOfComponents(cs: seq<string>)
    requires forall i :: 0 <= i < |cs| ==> cs[i] != "" && cs[i] != "."
    ensures Components(cs) == cs
  {
    if cs != [] {
      ComponentsOfComponents(cs[1..]);
      assert cs == [cs[0]] + cs[1..];
    }
  }

  // ---------------------------------------------------------------------------
  // Loading a definition

  /** What `load_agent` returns: the `run-agent` value, the system context and the description. */
  datatype Agent = Agent(runAgent: Option<string>, systemContext: string, description: string)

  /** Why `load_agent` raises. */
  datatype LoadError = InvalidName(name: string) | NotFound(name: string)

  /** The part of `load_agent` that works on the text of the definition. */
  function ReadDefinition(content: string): Agent {
    var p := Frontmatter(content);
    Agent(
      if "run-agent" in p.frontmatter then Some(p.frontmatter["run-agent"]) else None,
      Strip(p.body),
      Description(p.body))
  }

  /** `load_agent(agents_dir, name)`, with the directory given as the texts of its
      files by file name: `<name>.md` is preferred over `<name>.txt`. */
  function LoadAgent(files: map<string, string>, name: string): (r: Result<Agent, LoadError>)
    ensures r == Err(InvalidName(name)) <==> ValidateAgentName(name).Err?
    ensures r == Err(NotFound(name)) <==>
      ValidateAgentName(name).Ok? && name + ".md" !in files && name + ".txt" !in files
    ensures r.Ok? && name + ".md" in files ==> r.value == ReadDefinition(files[name + ".md"])
    ensures r.Ok? && name + ".md" !in files ==> name + ".txt" in files && r.value == ReadDefinition(files[name + ".txt"])
  {
    if ValidateAgentName(name).Err? then Err(InvalidName(name))
    else if name + ".md" in files then Ok(ReadDefinition(files[name + ".md"]))
    else if name + ".txt" in files then Ok(ReadDefinition(files[name + ".txt"]))
    else Err(NotFound(name))
  }
}
