/** `list_agents` of skills/sub-agents/scripts/run_subagent.py without the file
    system: the two globs (`*.md`, then `*.txt`) are given as listings of files,
    each with its stem and its text, or `None` when reading it raised. */
module Listing {
  import opened Wrappers
  import opened Loader

  /** A file a glob found: its stem and what reading it gave. */
  datatype AgentFile = AgentFile(stem: string, content: Option<string>)

  /** One entry of the listing: `{"name": ..., "description": ...}`. */
  datatype Summary = Summary(name: string, description: string)

  /** The entry for one file: the description of its body, or `""` when reading failed. */
  function Summarize(f: AgentFile): Summary {
    match f.content
    case None => Summary(f.stem, "")
    case Some(text) => Summary(f.stem, Description(Frontmatter(text).body))
  }

  /** The entries for `files` in order, each stem listed once, by its first file;
      stems in `seen` are skipped. */
  function Unseen(files: seq<AgentFile>, seen: set<string>): seq<Summary> {
    if files == [] then []
    else if files[0].stem in seen then Unseen(files[1..], seen)
    else [Summarize(files[0])] + Unseen(files[1..], seen + {files[0].stem})
  }

  /** The names of the entries. */
  function Names(s: seq<Summary>): set<string> {
    set e | e in s :: e.name
  }

  /** No two entries share a name. */
  predicate Distinct(s: seq<Summary>) {
    forall i, j :: 0 <= i < j < |s| ==> s[i].name != s[j].name
  }

  /** Python's `<=` on strings: code point by code point, a proper prefix first. */
  predicate NameLe(a: string, b: string)
    decreases |a|
  {
    a == [] || (b != [] && (a[0] < b[0] || (a[0] == b[0] && NameLe(a[1..], b[1..]))))
  }

  lemma {:induction false} NameLeTotal(a: string, b: string)
    ensures NameLe(a, b) || NameLe(b, a)
    decreases |a|
  {
    if a != [] && b != [] && a[0] == b[0] {
      NameLeTotal(a[1..], b[1..]);
    }
  }

  /** Each entry's name is at most the next one's. */
  predicate Sorted(s: seq<Summary>) {
    forall i :: 0 <= i < |s| - 1 ==> NameLe(s[i].name, s[i + 1].name)
  }

  /** `x` put before the first entry whose name it does not exceed. */
  function Insert(x: Summary, s: seq<Summary>): (r: seq<Summary>)
    ensures multiset(r) == multiset(s) + multiset{x}
    ensures r[0] == (if s == [] || NameLe(x.name, s[0].name) then x else s[0])
  {
    if s == [] then [x]
    else if NameLe(x.name, s[0].name) then [x] + s
    else
      assert s == [s[0]] + s[1..];
      [s[0]] + Insert(x, s[1..])
  }

  lemma {:induction false} InsertSorted(x: Summary, s: seq<Summary>)
    requires Sorted(s)
    ensures Sorted(Insert(x, s))
  {
    if s != [] && !NameLe(x.name, s[0].name) {
      NameLeTotal(x.name, s[0].name);
      InsertSorted(x, s[1..]);
    }
  }

  lemma {:induction false} InsertDistinct(x: Summary, s: seq<Summary>)
    requires Distinct(s) && x.name !in Names(s)
    ensures Distinct(Insert(x, s))
  {
    if s != [] && !NameLe(x.name, s[0].name) {
      NamesTail(s);
      InsertDistinct(x, s[1..]);
      var t := Insert(x, s[1..]);
      forall k | 0 <= k < |t|
        ensures t[k].name != s[0].name
      {
        assert t[k] in multiset(t);
        if t[k] != x {
          var m := TailPosition(s, t[k]);
        }
      }
    }
  }

  lemma NamesTail(s: seq<Summary>)
    requires s != [] && Distinct(s)
    ensures Names(s[1..]) <= Names(s) && Distinct(s[1..])
  {
    assert forall e :: e in s[1..] ==> e in s;
    forall i, j | 0 <= i < j < |s| - 1
      ensures s[1..][i].name != s[1..][j].name
    {
      assert s[1..][i] == s[i + 1] && s[1..][j] == s[j + 1];
    }
  }

  /** Where an entry of the tail sits in the whole sequence. */
  lemma TailPosition(s: seq<Summary>, e: Summary) returns (m: nat)
    requires s != [] && e in s[1..]
    ensures 0 < m < |s| && s[m] == e
  {
    var k :| 0 <= k < |s[1..]| && s[1..][k] == e;
    m := k + 1;
    assert s[m] == s[1..][k];
  }

  /** `sorted(agents, key=lambda a: a["name"])`, as an insertion sort. */
  function SortByName(s: seq<Summary>): (r: seq<Summary>)
    ensures multiset(r) == multiset(s)
    ensures Sorted(r)
  {
    if s == [] then []
    else
      var t := SortByName(s[1..]);
      InsertSorted(s[0], t);
      assert s == [s[0]] + s[1..];
      Insert(s[0], t)
  }

  /** Sorting keeps the names apart. */
  lemma {:induction false} SortDistinct(s: seq<Summary>)
    requires Distinct(s)
    ensures Distinct(SortByName(s))
  {
    if s != [] {
      var t := SortByName(s[1..]);
      SortDistinct(s[1..]);
      forall e | e in t
        ensures e.name != s[0].name
      {
        assert e in multiset(s[1..]);
        var m := TailPosition(s, e);
      }
      InsertDistinct(s[0], t);
    }
  }

  /** The entries left by the skip: distinct names, none of them seen before. */
  lemma {:induction false} UnseenDistinct(files: seq<AgentFile>, seen: set<string>)
    ensures forall e :: e in Unseen(files, seen) ==> e.name !in seen
    ensures Distinct(Unseen(files, seen))
  {
    if files != [] {
      UnseenDistinct(files[1..], seen + {files[0].stem});
      UnseenDistinct(files[1..], seen);
    }
  }

  /** The first file of a stem not seen before is listed, by its own entry. */
  lemma {:induction false} FirstFileListed(files: seq<AgentFile>, seen: set<string>, k: nat)
    requires k < |files| && files[k].stem !in seen && FirstOfStem(files, k)
    ensures Summarize(files[k]) in Unseen(files, seen)
  {
    if k > 0 {
      var seen' := if files[0].stem in seen then seen else seen + {files[0].stem};
      FirstFileListed(files[1..], seen', k - 1);
    }
  }

  /** No file before position `k` has the stem of file `k`. */
  predicate FirstOfStem(files: seq<AgentFile>, k: nat)
    requires k < |files|
  {
    forall j :: 0 <= j < k ==> files[j].stem != files[k].stem
  }

  lemma FirstOfStemShift(files: seq<AgentFile>, k: nat)
    requires k + 1 < |files| && FirstOfStem(files[1..], k) && files[0].stem != files[k + 1].stem
    ensures FirstOfStem(files, k + 1)
  {
    forall j | 0 < j < k + 1
      ensures files[j].stem != files[k + 1].stem
    {
      assert files[j] == files[1..][j - 1];
    }
  }

  /** Every entry is the entry of the first file of its stem, which was not seen before. */
  lemma {:induction false} ListedFromFirstFile(files: seq<AgentFile>, seen: set<string>, e: Summary)
    requires e in Unseen(files, seen)
    ensures exists k :: 0 <= k < |files| && files[k].stem !in seen && e == Summarize(files[k]) && FirstOfStem(files, k)
  {
    if e != Summarize(files[0]) || files[0].stem in seen {
      var seen' := if files[0].stem in seen then seen else seen + {files[0].stem};
      var rest := files[1..];
      assert e in Unseen(rest, seen');
      ListedFromFirstFile(rest, seen', e);
      var k :| 0 <= k < |rest| && rest[k].stem !in seen' && e == Summarize(rest[k]) && FirstOfStem(rest, k);
      assert files[k + 1] == rest[k];
      FirstOfStemShift(files, k);
    }
  }

  /** What `list_agents` returns: nothing when the directory does not exist,
      otherwise the deduplicated entries of the `.md` files then the `.txt`
      files, sorted by name. */
  function Listing(dirExists: bool, md: seq<AgentFile>, txt: seq<AgentFile>): (r: seq<Summary>)
    ensures Sorted(r) && Distinct(r)
  {
    if !dirExists then []
    else
      UnseenDistinct(md + txt, {});
      SortDistinct(Unseen(md + txt, {}));
      SortByName(Unseen(md + txt, {}))
  }

  /** A stem with a `.md` file is listed by its first `.md` file, and by no other entry. */
  lemma MarkdownPreferred(md: seq<AgentFile>, txt: seq<AgentFile>, k: nat)
    requires k < |md| && FirstOfStem(md, k)
    ensures Summarize(md[k]) in Listing(true, md, txt)
    ensures forall e :: e in Listing(true, md, txt) && e.name == md[k].stem ==> e == Summarize(md[k])
  {
    var all := md + txt;
    assert all[k] == md[k];
    assert forall j :: 0 <= j < k ==> all[j] == md[j];
    FirstFileListed(all, {}, k);
    StemListedOnce(all, k);
    ListingSorts(md, txt);
  }

  /** A stem with no `.md` file is listed by its first `.txt` file, and by no other entry. */
  lemma TextFileFallback(md: seq<AgentFile>, txt: seq<AgentFile>, k: nat)
    requires k < |txt| && FirstOfStem(txt, k)
    requires forall j :: 0 <= j < |md| ==> md[j].stem != txt[k].stem
    ensures Summarize(txt[k]) in Listing(true, md, txt)
    ensures forall e :: e in Listing(true, md, txt) && e.name == txt[k].stem ==> e == Summarize(txt[k])
  {
    var all := md + txt;
    assert all[|md| + k] == txt[k];
    assert forall j :: 0 <= j < |md| + k ==> all[j].stem != all[|md| + k].stem by {
      forall j | 0 <= j < |md| + k
        ensures all[j].stem != all[|md| + k].stem
      {
        if j >= |md| { assert all[j] == txt[j - |md|]; } else { assert all[j] == md[j]; }
      }
    }
    FirstFileListed(all, {}, |md| + k);
    StemListedOnce(all, |md| + k);
    ListingSorts(md, txt);
  }

  /** The listing holds the same entries as the skip, sorted. */
  lemma ListingSorts(md: seq<AgentFile>, txt: seq<AgentFile>)
    ensures forall e :: e in Listing(true, md, txt) <==> e in Unseen(md + txt, {})
  {
    var u := Unseen(md + txt, {});
    assert Listing(true, md, txt) == SortByName(u);
    forall e
      ensures e in SortByName(u) <==> e in u
    {
      assert e in SortByName(u) <==> e in multiset(SortByName(u));
    }
  }

  /** The listed entry of a first-met stem is the only one with that name. */
  lemma StemListedOnce(all: seq<AgentFile>, k: nat)
    requires k < |all| && Summarize(all[k]) in Unseen(all, {})
    ensures forall e :: e in Unseen(all, {}) && e.name == all[k].stem ==> e == Summarize(all[k])
  {
    var u := Unseen(all, {});
    UnseenDistinct(all, {});
    forall e | e in u && e.name == all[k].stem
      ensures e == Summarize(all[k])
    {
      var i :| 0 <= i < |u| && u[i] == e;
      var j :| 0 <= j < |u| && u[j] == Summarize(all[k]);
    }
  }

  /** Every listed entry is the entry of the first file of its stem, `.md` files first. */
  lemma ListedFromFile(md: seq<AgentFile>, txt: seq<AgentFile>, e: Summary)
    requires e in Listing(true, md, txt)
    ensures exists k :: 0 <= k < |md + txt| && e == Summarize((md + txt)[k]) && FirstOfStem(md + txt, k)
  {
    ListingSorts(md, txt);
    ListedFromFirstFile(md + txt, {}, e);
  }

  /** The stems of the files. */
  function Stems(files: seq<AgentFile>): set<string> {
    set f | f in files :: f.stem
  }

  /** One more file adds its stem. */
  lemma StemsSnoc(files: seq<AgentFile>, i: nat)
    requires i < |files|
    ensures Stems(files[..i + 1]) == Stems(files[..i]) + {files[i].stem}
  {
    assert files[..i + 1] == files[..i] + [files[i]];
  }

  /** The stems of a non-empty listing: the first file's and those of the rest. */
  lemma StemsCons(files: seq<AgentFile>)
    requires files != []
    ensures Stems(files) == {files[0].stem} + Stems(files[1..])
  {
    assert files == [files[0]] + files[1..];
  }

  /** The skip over two listings one after the other: the entries of the first,
      then those of the second with every stem of the first counted as seen. */
  lemma {:induction false} UnseenAppend(a: seq<AgentFile>, b: seq<AgentFile>, seen: set<string>)
    ensures Unseen(a + b, seen) == Unseen(a, seen) + Unseen(b, seen + Stems(a))
    decreases |a|
  {
    if a == [] {
      assert a + b == b;
      assert seen + Stems(a) == seen;
    } else {
      var f, rest := a[0], a[1..];
      var seen' := if f.stem in seen then seen else seen + {f.stem};
      ConsAppend(a, b);
      StemsCons(a);
      UnseenAppend(rest, b, seen');
      assert seen' + Stems(rest) == seen + Stems(a);
      if f.stem !in seen {
        Assoc([Summarize(f)], Unseen(rest, seen'), Unseen(b, seen + Stems(a)));
      }
    }
  }

  /** The first file and the rest of a listing put in front of another. */
  lemma ConsAppend(a: seq<AgentFile>, b: seq<AgentFile>)
    requires a != []
    ensures (a + b)[0] == a[0] && (a + b)[1..] == a[1..] + b
  {
  }

  /** `list_agents(agents_dir)`: the skip over seen stems and the list of entries
      are built in the order of the globs, then sorted. */
  method ListAgents(dirExists: bool, md: seq<AgentFile>, txt: seq<AgentFile>) returns (agents: seq<Summary>)
    ensures agents == Listing(dirExists, md, txt)
  {
    agents := [];
    if !dirExists {
      return;
    }
    var seen: set<string> := {};
    var globs := [md, txt];
    ghost var all := md + txt;
    ghost var base := 0;
    for g := 0 to 2
      invariant base == (if g == 0 then 0 else if g == 1 then |md| else |all|)
      invariant agents + Unseen(all[base..], seen) == Unseen(all, {})
    {
      var files := globs[g];
      ghost var rest := all[base + |files|..];
      assert all[base..] == files + rest;
      UnseenAppend(files, rest, seen);
      ghost var agents0, seen0 := agents, seen;
      agents, seen := AddGlob(files, agents, seen);
      Assoc(agents0, Unseen(files, seen0), Unseen(rest, seen));
      base := base + |files|;
    }
    assert all[base..] == [];
    assert agents == Unseen(all, {});
    assert Listing(true, md, txt) == SortByName(Unseen(all, {}));
    agents := SortByName(agents);
  }
  /** The inner loop of `list_agents` over the files of one glob: an entry is
      appended for each file whose stem is not yet seen, and that stem is recorded. */
  method AddGlob(files: seq<AgentFile>, agents0: seq<Summary>, seen0: set<string>)
    returns (agents: seq<Summary>, seen: set<string>)
    ensures agents == agents0 + Unseen(files, seen0)
    ensures seen == seen0 + Stems(files)
  {
    agents, seen := agents0, seen0;
    assert files[..0] == [] && files[0..] == files;
    for i := 0 to |files|
      invariant agents + Unseen(files[i..], seen) == agents0 + Unseen(files, seen0)
      invariant seen == seen0 + Stems(files[..i])
    {
      var f := files[i];
      UnseenStep(files, i, seen);
      StemsSnoc(files, i);
      if f.stem in seen {
        continue;
      }
      Regroup(agents, Summarize(f), Unseen(files[i + 1..], seen + {f.stem}));
      seen := seen + {f.stem};
      agents := agents + [Summarize(f)];
    }
    assert files[|files|..] == [] && files[..|files|] == files;
  }

  /** One step of the skip, at position `p` of the listing. */
  lemma UnseenStep(all: seq<AgentFile>, p: nat, seen: set<string>)
    requires p < |all|
    ensures all[p].stem in seen ==> Unseen(all[p..], seen) == Unseen(all[p + 1..], seen)
    ensures all[p].stem !in seen ==>
      Unseen(all[p..], seen) == [Summarize(all[p])] + Unseen(all[p + 1..], seen + {all[p].stem})
  {
    assert all[p..][0] == all[p];
    assert all[p..][1..] == all[p + 1..];
  }

  lemma Assoc(a: seq<Summary>, b: seq<Summary>, c: seq<Summary>)
    ensures (a + b) + c == a + (b + c)
  {
  }

  lemma Regroup(a: seq<Summary>, x: Summary, b: seq<Summary>)
    ensures (a + [x]) + b == a + ([x] + b)
  {
  }
}
