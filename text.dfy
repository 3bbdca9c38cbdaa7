/** The few operations on Python strings that the sub-agent runner relies on:
    `strip`, `startswith`, `split`, `join`, `in` on strings, `lower` and `str(int)`. */
module Text {

  /** The characters for which Python's `str.isspace()` holds. Both `str.strip()`
      and the `\s` class of the `re` module use exactly this set. */
  const Whitespace: set<char> := {
    '\t', '\n', '\U{000B}', '\U{000C}', '\r',
    '\U{001C}', '\U{001D}', '\U{001E}', '\U{001F}', ' ',
    '\U{0085}', '\U{00A0}', '\U{1680}',
    '\U{2000}', '\U{2001}', '\U{2002}', '\U{2003}', '\U{2004}', '\U{2005}',
    '\U{2006}', '\U{2007}', '\U{2008}', '\U{2009}', '\U{200A}',
    '\U{2028}', '\U{2029}', '\U{202F}', '\U{205F}', '\U{3000}'
  }

  /** The characters removed by `strip("\"'")`. */
  const Quotes: set<char> := {'"', '\''}

  /** Every character of `s[lo..hi]` is in `cs`. */
  predicate AllIn(s: string, lo: nat, hi: nat, cs: set<char>)
    requires lo <= hi <= |s|
  {
    forall k :: lo <= k < hi ==> s[k] in cs
  }

  /** Length of the longest prefix of `s` made of characters of `cs`. */
  function LeadingRun(s: string, cs: set<char>): (n: nat)
    ensures n <= |s|
    ensures n < |s| ==> s[n] !in cs
  {
    if |s| > 0 && s[0] in cs then 1 + LeadingRun(s[1..], cs) else 0
  }

  /** Length of the longest suffix of `s` made of characters of `cs`. */
  function TrailingRun(s: string, cs: set<char>): (n: nat)
    ensures n <= |s|
    ensures n < |s| ==> s[|s| - n - 1] !in cs
  {
    if |s| > 0 && s[|s| - 1] in cs then 1 + TrailingRun(s[..|s| - 1], cs) else 0
  }

  /** The leading run is made of characters of `cs`. */
  lemma {:induction false} LeadingRunIn(s: string, cs: set<char>)
    ensures AllIn(s, 0, LeadingRun(s, cs), cs)
  {
    if |s| > 0 && s[0] in cs {
      LeadingRunIn(s[1..], cs);
      forall k | 1 <= k < LeadingRun(s, cs) ensures s[k] in cs {
        assert s[k] == s[1..][k - 1];
      }
    }
  }

  /** The trailing run is made of characters of `cs`. */
  lemma {:induction false} TrailingRunIn(s: string, cs: set<char>)
    ensures AllIn(s, |s| - TrailingRun(s, cs), |s|, cs)
  {
    if |s| > 0 && s[|s| - 1] in cs {
      TrailingRunIn(s[..|s| - 1], cs);
      forall k | |s| - TrailingRun(s, cs) <= k < |s| - 1 ensures s[k] in cs {
        assert s[k] == s[..|s| - 1][k];
      }
    }
  }

  /** Drop the longest trailing run of `cs`. */
  function TrimEnd(s: string, cs: set<char>): (r: string)
    ensures r == s[..|s| - TrailingRun(s, cs)]
    ensures r == [] || r[|r| - 1] !in cs
  {
    if |s| > 0 && s[|s| - 1] in cs then TrimEnd(s[..|s| - 1], cs) else s
  }

  /** Python's `s.strip(cs)`: drop the longest leading and trailing runs of `cs`. */
  function Trim(s: string, cs: set<char>): (r: string)
    ensures |r| <= |s|
    ensures r == [] || (r[0] !in cs && r[|r| - 1] !in cs)
  {
    if |s| > 0 && s[0] in cs then Trim(s[1..], cs) else TrimEnd(s, cs)
  }

  /** Trimming drops the leading run, then the trailing run of what is left. */
  lemma {:induction false} TrimDropsLeadingRun(s: string, cs: set<char>)
    ensures Trim(s, cs) == TrimEnd(s[LeadingRun(s, cs)..], cs)
  {
    if |s| > 0 && s[0] in cs {
      TrimDropsLeadingRun(s[1..], cs);
      assert s[1..][LeadingRun(s[1..], cs)..] == s[LeadingRun(s, cs)..];
    }
  }

  /** What `Trim` keeps is the slice of `s` right after the leading run. */
  lemma TrimKept(s: string, cs: set<char>)
    ensures LeadingRun(s, cs) + |Trim(s, cs)| <= |s|
    ensures Trim(s, cs) == s[LeadingRun(s, cs)..LeadingRun(s, cs) + |Trim(s, cs)|]
  {
    var n := LeadingRun(s, cs);
    TrimDropsLeadingRun(s, cs);
    assert Trim(s, cs) == s[n..][..|s| - n - TrailingRun(s[n..], cs)];
  }

  /** Everything `Trim` drops is in `cs`. */
  lemma TrimDropped(s: string, cs: set<char>)
    ensures LeadingRun(s, cs) + |Trim(s, cs)| <= |s|
    ensures AllIn(s, 0, LeadingRun(s, cs), cs)
    ensures AllIn(s, LeadingRun(s, cs) + |Trim(s, cs)|, |s|, cs)
  {
    var n := LeadingRun(s, cs);
    var t := s[n..];
    TrimDropsLeadingRun(s, cs);
    LeadingRunIn(s, cs);
    TrailingRunIn(t, cs);
    AllInShift(s, n, |t| - TrailingRun(t, cs), |t|, cs);
  }

  /** A run inside a suffix of `s` is a run inside `s`. */
  lemma AllInShift(s: string, n: nat, lo: nat, hi: nat, cs: set<char>)
    requires n <= |s| && lo <= hi <= |s| - n && AllIn(s[n..], lo, hi, cs)
    ensures AllIn(s, n + lo, n + hi, cs)
  {
    forall k | n + lo <= k < n + hi ensures s[k] in cs {
      assert s[k] == s[n..][k - n];
    }
  }

  /** `Trim` keeps nothing exactly when every character is in `cs`. */
  lemma TrimEmpty(s: string, cs: set<char>)
    ensures Trim(s, cs) == [] <==> AllIn(s, 0, |s|, cs)
  {
    var n := LeadingRun(s, cs);
    var t := s[n..];
    TrimDropsLeadingRun(s, cs);
    LeadingRunIn(s, cs);
    if Trim(s, cs) == [] {
      TrailingRunIn(t, cs);
    }
  }

  /** Index `k` of `s` is index `k - lo` of the slice from `lo`. */
  lemma SliceAt(s: string, lo: nat, hi: nat, k: nat)
    requires lo <= k < hi <= |s|
    ensures s[lo..hi][k - lo] == s[k]
  {
  }

  /** A second trim removes nothing. */
  lemma TrimIdempotent(s: string, cs: set<char>)
    ensures Trim(Trim(s, cs), cs) == Trim(s, cs)
  {
    var r := Trim(s, cs);
    if r != [] {
      assert TrailingRun(r, cs) == 0;
    }
  }

  /** Python's `s.strip()`. */
  function Strip(s: string): string {
    Trim(s, Whitespace)
  }

  /** The string holds nothing but whitespace. */
  predicate IsBlank(s: string) {
    AllIn(s, 0, |s|, Whitespace)
  }

  /** Python's `s.strip() == ""` holds exactly for blank strings. */
  lemma StripEmptyIffBlank(s: string)
    ensures Strip(s) == [] <==> IsBlank(s)
  {
    TrimEmpty(s, Whitespace);
  }

  /** Index of the first occurrence of `c` in `s`. */
  function IndexOf(s: string, c: char): (i: nat)
    requires c in s
    ensures i < |s| && s[i] == c && c !in s[..i]
  {
    if s[0] == c then 0 else 1 + IndexOf(s[1..], c)
  }

  /** Python's `s.split(c)` for a one-character separator. */
  function Split(s: string, c: char): (parts: seq<string>)
    ensures |parts| >= 1
    ensures forall i :: 0 <= i < |parts| ==> c !in parts[i]
    decreases |s|
  {
    if c in s then
      var i := IndexOf(s, c);
      [s[..i]] + Split(s[i + 1..], c)
    else
      [s]
  }

  /** Python's `sep.join(parts)`. */
  function Join(parts: seq<string>, sep: string): string {
    if |parts| == 0 then []
    else if |parts| == 1 then parts[0]
    else parts[0] + sep + Join(parts[1..], sep)
  }

  /** Python's `"".join(parts)`. */
  function Concat(parts: seq<string>): string {
    Join(parts, [])
  }

  /** Joining the pieces of a split with the separator gives back the string. */
  lemma {:induction false} JoinSplit(s: string, c: char)
    ensures Join(Split(s, c), [c]) == s
    decreases |s|
  {
    if c in s {
      var i := IndexOf(s, c);
      var rest := s[i + 1..];
      JoinSplit(rest, c);
      var tail := Split(rest, c);
      assert Split(s, c) == [s[..i]] + tail;
      assert Join(Split(s, c), [c]) == s[..i] + [c] + Join(tail, [c]);
      assert s == s[..i] + [c] + rest;
    }
  }

  /** Splitting a join of separator-free pieces gives back the pieces. */
  lemma {:induction false} SplitJoin(parts: seq<string>, c: char)
    requires |parts| >= 1
    requires forall i :: 0 <= i < |parts| ==> c !in parts[i]
    ensures Split(Join(parts, [c]), c) == parts
    decreases |parts|
  {
    if |parts| > 1 {
      var p := parts[0];
      var tail := Join(parts[1..], [c]);
      var s := Join(parts, [c]);
      assert s == p + [c] + tail;
      assert s[|p|] == c;
      assert s[..|p|] == p;
      var i := IndexOf(s, c);
      assert i == |p|;
      assert s[..i] == p;
      assert s[i + 1..] == tail;
      SplitJoin(parts[1..], c);
    }
  }

  /** Python's `t in s` for strings. */
  predicate Contains(s: string, t: string)
    decreases |s|
  {
    t <= s || (|s| > 0 && Contains(s[1..], t))
  }

  /** `t` occurs in `s` starting at index `i`. */
  predicate OccursAt(s: string, t: string, i: int) {
    0 <= i <= |s| - |t| && s[i..i + |t|] == t
  }

  /** `Contains` holds exactly when `t` occurs at some position of `s`. */
  lemma {:induction false} ContainsAt(s: string, t: string)
    ensures Contains(s, t) <==> exists i :: OccursAt(s, t, i)
    decreases |s|
  {
    if t <= s {
      assert OccursAt(s, t, 0);
    } else if |s| > 0 {
      ContainsAt(s[1..], t);
      if Contains(s[1..], t) {
        var i :| OccursAt(s[1..], t, i);
        assert s[i + 1..i + 1 + |t|] == s[1..][i..i + |t|];
        assert OccursAt(s, t, i + 1);
      }
      if exists i :: OccursAt(s, t, i) {
        var i :| OccursAt(s, t, i);
        assert i > 0;
        assert s[1..][i - 1..i - 1 + |t|] == s[i..i + |t|];
        assert OccursAt(s[1..], t, i - 1);
      }
    }
  }

  /** Every slice of `s` occurs in `s`. */
  lemma ContainsSlice(s: string, lo: nat, hi: nat)
    requires lo <= hi <= |s|
    ensures Contains(s, s[lo..hi])
  {
    assert OccursAt(s, s[lo..hi], lo);
    ContainsAt(s, s[lo..hi]);
  }

  /** Lower-case of an ASCII letter; every other character is kept. */
  function LowerChar(c: char): char {
    if 'A' <= c <= 'Z' then (c as int + 32) as char else c
  }

  /** `s.lower()` restricted to ASCII letters. */
  function Lower(s: string): (r: string)
    ensures |r| == |s|
    ensures forall i :: 0 <= i < |s| ==> r[i] == LowerChar(s[i])
  {
    seq(|s|, i requires 0 <= i < |s| => LowerChar(s[i]))
  }

  /** `s` holds an upper-case ASCII letter. */
  predicate HasCapital(s: string) {
    exists i :: 0 <= i < |s| && 'A' <= s[i] <= 'Z'
  }

  /** Lower-casing leaves no upper-case ASCII letter, and it changes a string
      exactly when the string holds one; so doing it twice is doing it once. */
  lemma LowerFixpoint(s: string)
    ensures !HasCapital(Lower(s))
    ensures Lower(s) == s <==> !HasCapital(s)
    ensures Lower(Lower(s)) == Lower(s)
  {
    if HasCapital(s) {
      var i :| 0 <= i < |s| && 'A' <= s[i] <= 'Z';
      assert Lower(s)[i] != s[i];
    } else {
      assert forall i :: 0 <= i < |s| ==> Lower(s)[i] == s[i];
    }
    var t := Lower(s);
    assert forall i :: 0 <= i < |t| ==> Lower(t)[i] == t[i];
  }

  /** `s[:n]`. */
  function Take(s: string, n: nat): (r: string)
    ensures |r| <= n && r <= s
    ensures |s| <= n ==> r == s
  {
    if |s| <= n then s else s[..n]
  }

  predicate IsDigit(c: char) {
    '0' <= c <= '9'
  }

  function DigitChar(d: nat): char
    requires d < 10
  {
    ('0' as int + d) as char
  }

  /** Decimal digits of `n` without leading zeros. */
  function NatToString(n: nat): (r: string)
    ensures |r| >= 1 && forall i :: 0 <= i < |r| ==> IsDigit(r[i])
    ensures r[0] == '0' ==> n == 0
  {
    if n < 10 then [DigitChar(n)] else NatToString(n / 10) + [DigitChar(n % 10)]
  }

  /** The value of a string of decimal digits. */
  function DecimalValue(s: string): int
    requires forall i :: 0 <= i < |s| ==> IsDigit(s[i])
  {
    if s == [] then 0 else 10 * DecimalValue(s[..|s| - 1]) + (s[|s| - 1] as int - '0' as int)
  }

  /** Reading back the digits of `n` gives `n`. */
  lemma {:induction false} NatToStringValue(n: nat)
    ensures DecimalValue(NatToString(n)) == n
  {
    if n >= 10 {
      NatToStringValue(n / 10);
      var r := NatToString(n);
      assert r[..|r| - 1] == NatToString(n / 10);
    }
  }

  /** Python's `str(n)` for an `int`. */
  function IntToString(n: int): (r: string)
    ensures |r| >= 1
    ensures r[0] == '-' <==> n < 0
    ensures n < 0 ==> r[1..] == NatToString(-n)
    ensures n >= 0 ==> r == NatToString(n)
  {
    if n < 0 then "-" + NatToString(-n) else NatToString(n)
  }
}
