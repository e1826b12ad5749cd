/**
 The two regular expressions of the itinerary parser, with the character classes of OpenJDK's
 `java.util.regex` (Kotlin's `Regex` on the JVM; Android's ICU-based engine defines `\s`, `\d`
 and `.` more widely):

 - the day-heading pattern `^\s*(?:\*\*)?Day\s*\d+[:\s-].*?(?:\*\*)?$` with `IGNORE_CASE`,
   applied with `matches` (the whole line must match);
 - the bold pattern `\*\*(.+?)\*\*`, applied with `find` (the leftmost match, and at that
   position the shortest group).

 Each is given twice: as a decision procedure the parser runs, and as a reading of the
 pattern piece by piece; lemmas show the two agree.
 */
module Patterns {
  import opened Optional
  import opened KotlinText

  /** `\s` without `UNICODE_CHARACTER_CLASS`: space, TAB, LF, VT, FF, CR. */
  predicate IsRegexSpace(c: char) {
    var n := c as int;
    n == 0x20 || 0x09 <= n <= 0x0D
  }

  /** `\d` without `UNICODE_CHARACTER_CLASS`: an ASCII digit. */
  predicate IsAsciiDigit(c: char) {
    '0' <= c <= '9'
  }

  /** The characters `.` does not match without `DOTALL`: LF, CR, NEL, LINE and PARAGRAPH SEPARATOR. */
  predicate IsLineTerminator(c: char) {
    var n := c as int;
    n == 0x0A || n == 0x0D || n == 0x85 || n == 0x2028 || n == 0x2029
  }

  /** The class `[:\s-]`. */
  predicate IsHeadingSeparator(c: char) {
    c == ':' || c == '-' || IsRegexSpace(c)
  }

  predicate AllSatisfy(s: string, p: char -> bool) {
    forall i | 0 <= i < |s| :: p(s[i])
  }

  lemma AllSatisfySlice(s: string, i: nat, j: nat, p: char -> bool)
    requires i <= j <= |s|
    ensures AllSatisfy(s[i..j], p) <==> forall k | i <= k < j :: p(s[k])
  {
    if AllSatisfy(s[i..j], p) {
      forall k | i <= k < j ensures p(s[k]) { assert s[k] == s[i..j][k - i]; }
    }
    if forall k | i <= k < j :: p(s[k]) {
      forall k | 0 <= k < j - i ensures p(s[i..j][k]) { assert s[i..j][k] == s[i + k]; }
    }
  }

  /** `.*` can run over all of `s`. */
  predicate NoLineTerminator(s: string) {
    forall i | 0 <= i < |s| :: !IsLineTerminator(s[i])
  }

  lemma NoLineTerminatorSlice(s: string, i: nat, j: nat)
    requires i <= j <= |s|
    ensures NoLineTerminator(s[i..j]) <==> forall k | i <= k < j :: !IsLineTerminator(s[k])
  {
    if NoLineTerminator(s[i..j]) {
      forall k | i <= k < j ensures !IsLineTerminator(s[k]) { assert s[k] == s[i..j][k - i]; }
    }
  }

  /** End of the run of characters satisfying `p` that starts at `i`: where a greedy `p*` stops. */
  function RunEnd(s: string, i: nat, p: char -> bool): (j: nat)
    requires i <= |s|
    ensures i <= j <= |s|
    decreases |s| - i
  {
    if i < |s| && p(s[i]) then RunEnd(s, i + 1, p) else i
  }

  /** Every character of the run satisfies `p`, and the one after it, if any, does not. */
  lemma {:induction false} RunEndIsRun(s: string, i: nat, p: char -> bool)
    requires i <= |s|
    ensures forall k | i <= k < RunEnd(s, i, p) :: p(s[k])
    ensures RunEnd(s, i, p) < |s| ==> !p(s[RunEnd(s, i, p)])
    decreases |s| - i
  {
    if i < |s| && p(s[i]) {
      RunEndIsRun(s, i + 1, p);
    }
  }

  /** `Day` under `IGNORE_CASE` (with the `UNICODE_CASE` Kotlin adds) at position `b`. */
  predicate IsDayWordAt(s: string, b: nat)
    requires b + 3 <= |s|
  {
    (s[b] == 'd' || s[b] == 'D') && (s[b + 1] == 'a' || s[b + 1] == 'A') && (s[b + 2] == 'y' || s[b + 2] == 'Y')
  }

  /** `dayPattern.matches(s)`, decided left to right: each optional or repeated piece of the pattern
      can only end where its characters run out, so no backtracking is needed. */
  predicate IsDayHeading(s: string) {
    var a := RunEnd(s, 0, IsRegexSpace);
    var b := if a + 2 <= |s| && s[a] == '*' && s[a + 1] == '*' then a + 2 else a;
    b + 3 <= |s| && IsDayWordAt(s, b) &&
    var c := RunEnd(s, b + 3, IsRegexSpace);
    var d := RunEnd(s, c, IsAsciiDigit);
    c < d < |s| && IsHeadingSeparator(s[d]) && NoLineTerminator(s[d + 1..])
  }

  /** The day-heading pattern matches all of `s`, its pieces meeting at the given positions:
      `^\s*` is `s[..a]`, `(?:\*\*)?` is `s[a..b]`, `Day` is `s[b..b + 3]`, `\s*` is `s[b + 3..c]`,
      `\d+` is `s[c..d]`, `[:\s-]` is `s[d]`, `.*?` is `s[d + 1..e]` and `(?:\*\*)?$` is `s[e..]`. */
  ghost predicate DayPatternSplit(s: string, a: nat, b: nat, c: nat, d: nat, e: nat) {
    && a <= b && b + 3 <= c < d < e <= |s|
    && AllSatisfy(s[..a], IsRegexSpace)
    && (b == a || (b == a + 2 && s[a] == '*' && s[a + 1] == '*'))
    && IsDayWordAt(s, b)
    && AllSatisfy(s[b + 3..c], IsRegexSpace)
    && AllSatisfy(s[c..d], IsAsciiDigit)
    && IsHeadingSeparator(s[d])
    && NoLineTerminator(s[d + 1..e])
    && (e == |s| || (e + 2 == |s| && s[e] == '*' && s[e + 1] == '*'))
  }

  ghost predicate MatchesDayPattern(s: string) {
    exists a: nat, b: nat, c: nat, d: nat, e: nat :: DayPatternSplit(s, a, b, c, d, e)
  }

  /** A run that is bounded on the right ends exactly there. */
  lemma {:induction false} RunEndAt(s: string, i: nat, j: nat, p: char -> bool)
    requires i <= j <= |s|
    requires forall k | i <= k < j :: p(s[k])
    requires j < |s| ==> !p(s[j])
    ensures RunEnd(s, i, p) == j
    decreases j - i
  {
    if i < j {
      RunEndAt(s, i + 1, j, p);
    }
  }

  /** The decision procedure accepts exactly the lines the pattern matches. */
  lemma DayHeadingMatchesPattern(s: string)
    ensures IsDayHeading(s) <==> MatchesDayPattern(s)
  {
    if IsDayHeading(s) {
      DayHeadingHasSplit(s);
    }
    if MatchesDayPattern(s) {
      var a: nat, b: nat, c: nat, d: nat, e: nat :| DayPatternSplit(s, a, b, c, d, e);
      SplitIsDayHeading(s, a, b, c, d, e);
    }
  }

  lemma DayHeadingHasSplit(s: string)
    requires IsDayHeading(s)
    ensures MatchesDayPattern(s)
  {
    var a := RunEnd(s, 0, IsRegexSpace);
    var b := if a + 2 <= |s| && s[a] == '*' && s[a + 1] == '*' then a + 2 else a;
    var c := RunEnd(s, b + 3, IsRegexSpace);
    var d := RunEnd(s, c, IsAsciiDigit);
    assert AllSatisfy(s[..a], IsRegexSpace) by {
      RunEndIsRun(s, 0, IsRegexSpace);
      AllSatisfySlice(s, 0, a, IsRegexSpace);
      assert s[..a] == s[0..a];
    }
    assert AllSatisfy(s[b + 3..c], IsRegexSpace) by {
      RunEndIsRun(s, b + 3, IsRegexSpace);
      AllSatisfySlice(s, b + 3, c, IsRegexSpace);
    }
    assert AllSatisfy(s[c..d], IsAsciiDigit) by {
      RunEndIsRun(s, c, IsAsciiDigit);
      AllSatisfySlice(s, c, d, IsAsciiDigit);
    }
    assert s[d + 1..|s|] == s[d + 1..];
    assert DayPatternSplit(s, a, b, c, d, |s|);
  }

  lemma SplitIsDayHeading(s: string, a: nat, b: nat, c: nat, d: nat, e: nat)
    requires DayPatternSplit(s, a, b, c, d, e)
    ensures IsDayHeading(s)
  {
    assert s[..a] == s[0..a];
    AllSatisfySlice(s, 0, a, IsRegexSpace);
    RunEndAt(s, 0, a, IsRegexSpace);
    var b' := if a + 2 <= |s| && s[a] == '*' && s[a + 1] == '*' then a + 2 else a;
    assert b' == b;
    AllSatisfySlice(s, b + 3, c, IsRegexSpace);
    RunEndAt(s, b + 3, c, IsRegexSpace);
    AllSatisfySlice(s, c, d, IsAsciiDigit);
    RunEndAt(s, c, d, IsAsciiDigit);
    TailHasNoLineTerminator(s, d + 1, e);
  }

  lemma TailHasNoLineTerminator(s: string, i: nat, e: nat)
    requires i <= e <= |s| && NoLineTerminator(s[i..e])
    requires e == |s| || (e + 2 == |s| && s[e] == '*' && s[e + 1] == '*')
    ensures NoLineTerminator(s[i..])
  {
    NoLineTerminatorSlice(s, i, e);
    NoLineTerminatorSlice(s, i, |s|);
    assert s[i..|s|] == s[i..];
  }

  /** Lines the parser must tell apart: a heading needs its separator after the number. */
  lemma DayHeadingExamples()
    ensures IsDayHeading("Day 1: Go")
    ensures IsDayHeading("**Day 1:** x")
    ensures !IsDayHeading("Day 1")
    ensures !IsDayHeading("**Day 1**")
  {
    HeadingExampleColon();
    HeadingExampleBold();
    HeadingExampleNoSeparator();
    HeadingExampleClosedBold();
  }

  lemma HeadingExampleColon()
    ensures IsDayHeading("Day 1: Go")
  {
    var s := "Day 1: Go";
    assert RunEnd(s, 0, IsRegexSpace) == 0 by { RunEndAt(s, 0, 0, IsRegexSpace); }
    assert s[0] == 'D' && s[1] == 'a' && s[2] == 'y';
    assert RunEnd(s, 3, IsRegexSpace) == 4 by { RunEndAt(s, 3, 4, IsRegexSpace); }
    assert RunEnd(s, 4, IsAsciiDigit) == 5 by { RunEndAt(s, 4, 5, IsAsciiDigit); }
    assert s[5] == ':';
    assert NoLineTerminator(s[6..]) by { assert s[6..] == " Go"; }
  }

  lemma HeadingExampleBold()
    ensures IsDayHeading("**Day 1:** x")
  {
    var s := "**Day 1:** x";
    assert RunEnd(s, 0, IsRegexSpace) == 0 by { RunEndAt(s, 0, 0, IsRegexSpace); }
    assert s[0] == '*' && s[1] == '*' && s[2] == 'D' && s[3] == 'a' && s[4] == 'y';
    assert RunEnd(s, 5, IsRegexSpace) == 6 by { RunEndAt(s, 5, 6, IsRegexSpace); }
    assert RunEnd(s, 6, IsAsciiDigit) == 7 by { RunEndAt(s, 6, 7, IsAsciiDigit); }
    assert s[7] == ':';
    assert NoLineTerminator(s[8..]) by { assert s[8..] == "** x"; }
  }

  lemma HeadingExampleNoSeparator()
    ensures !IsDayHeading("Day 1")
  {
    var s := "Day 1";
    RunEndAt(s, 0, 0, IsRegexSpace);
    RunEndAt(s, 3, 4, IsRegexSpace);
    RunEndAt(s, 4, 5, IsAsciiDigit);
  }

  lemma HeadingExampleClosedBold()
    ensures !IsDayHeading("**Day 1**")
  {
    var s := "**Day 1**";
    RunEndAt(s, 0, 0, IsRegexSpace);
    RunEndAt(s, 5, 6, IsRegexSpace);
    RunEndAt(s, 6, 7, IsAsciiDigit);
  }

  /** A line that passes the day-heading test keeps a character other than `*`, so
      removing its `**` markers leaves a non-empty label. */
  lemma HeadingLabelNonEmpty(s: string)
    requires IsDayHeading(s)
    ensures |RemoveDoubleStars(s)| > 0
  {
    var a := RunEnd(s, 0, IsRegexSpace);
    var b := if a + 2 <= |s| && s[a] == '*' && s[a + 1] == '*' then a + 2 else a;
    UnstarredKeeps(s, b);
    assert Unstarred(RemoveDoubleStars(s)) == Unstarred(s);
  }

  lemma {:induction false} UnstarredKeeps(s: string, i: nat)
    requires i < |s| && s[i] != '*'
    ensures |Unstarred(s)| > 0
  {
    if i > 0 && s[0] == '*' {
      UnstarredKeeps(s[1..], i - 1);
    }
  }

  /** What `find` returns: where the match starts, and `groupValues[1]`. */
  datatype BoldMatch = BoldMatch(start: nat, group: string)

  /** `MatchResult.value`: the matched text, markers included. */
  function MatchValue(m: BoldMatch): string {
    "**" + m.group + "**"
  }

  /** `\*\*(.+?)\*\*` matches `s[i..j + 2]`, its group being `s[i + 2..j]`. */
  ghost predicate BoldAt(s: string, i: nat, j: nat) {
    i + 2 < j && j + 2 <= |s| && s[i] == '*' && s[i + 1] == '*'
    && NoLineTerminator(s[i + 2..j]) && s[j] == '*' && s[j + 1] == '*'
  }

  /** A group starting at `g` can be closed by `**` at `k`. */
  ghost predicate CloseAt(s: string, g: nat, k: nat) {
    g <= k && k + 2 <= |s| && NoLineTerminator(s[g..k]) && s[k] == '*' && s[k + 1] == '*'
  }

  lemma NoLineTerminatorExtend(s: string, g: nat, j: nat)
    requires g <= j < |s| && NoLineTerminator(s[g..j]) && !IsLineTerminator(s[j])
    ensures NoLineTerminator(s[g..j + 1])
  {
    NoLineTerminatorSlice(s, g, j);
    NoLineTerminatorSlice(s, g, j + 1);
  }

  /** A bold match at `i` is a group opened by `**` at `i` and closed at `j`. */
  lemma BoldAtIsClose(s: string, i: nat, g: nat)
    requires g == i + 2
    ensures forall j: nat :: BoldAt(s, i, j) <==> i + 3 <= j && CloseAt(s, g, j) && s[i] == '*' && s[i + 1] == '*'
  {
  }

  lemma LineTerminatorBlocks(s: string, g: nat, t: nat)
    requires g <= t < |s| && IsLineTerminator(s[t])
    ensures forall k | t < k <= |s| :: !NoLineTerminator(s[g..k])
  {
    forall k | t < k <= |s| ensures !NoLineTerminator(s[g..k]) {
      assert s[g..k][t - g] == s[t];
    }
  }

  /** The lazy `(.+?)\*\*` with the group starting at `g` and already reaching `j - 1`:
      the first `k >= j` at which `**` closes the group. */
  function CloseFrom(s: string, g: nat, j: nat): (r: Option<nat>)
    requires g < j <= |s| + 1 && NoLineTerminator(s[g..j - 1])
    ensures r.Some? ==> j <= r.value && CloseAt(s, g, r.value)
    ensures forall k: nat | j <= k && (r.None? || k < r.value) :: !CloseAt(s, g, k)
    decreases |s| - j
  {
    if j + 2 > |s| then None
    else if IsLineTerminator(s[j - 1]) then
      LineTerminatorBlocks(s, g, j - 1);
      None
    else
      NoLineTerminatorExtend(s, g, j - 1);
      if s[j] == '*' && s[j + 1] == '*' then Some(j) else CloseFrom(s, g, j + 1)
  }

  /** `boldPattern.find(s, i)`: the first match at or after `i`. */
  function FindBoldFrom(s: string, i: nat): (r: Option<BoldMatch>)
    ensures r.Some? ==> i <= r.value.start && r.value.start + |MatchValue(r.value)| <= |s|
    decreases |s| - i
  {
    if i + 2 > |s| then None
    else if s[i] == '*' && s[i + 1] == '*' && CloseFrom(s, i + 2, i + 3).Some? then
      var j := CloseFrom(s, i + 2, i + 3).value;
      Some(BoldMatch(i, s[i + 2..j]))
    else
      FindBoldFrom(s, i + 1)
  }

  /** What `find` returns is a match: `**`, the group, `**`. */
  lemma {:induction false} FindBoldFromMatches(s: string, i: nat)
    ensures var r := FindBoldFrom(s, i);
      r.Some? ==> var m := r.value; var j := m.start + 2 + |m.group|;
      BoldAt(s, m.start, j) && m.group == s[m.start + 2..j]
    decreases |s| - i
  {
    if i + 2 <= |s| {
      if s[i] == '*' && s[i + 1] == '*' && CloseFrom(s, i + 2, i + 3).Some? {
        var j := CloseFrom(s, i + 2, i + 3).value;
        assert CloseAt(s, i + 2, j);
        assert |s[i + 2..j]| == j - i - 2;
      } else {
        FindBoldFromMatches(s, i + 1);
      }
    }
  }

  /** The lazy group: no match starting where `find`'s match starts closes earlier. */
  lemma {:induction false} FindBoldFromShortest(s: string, i: nat, j': nat)
    requires FindBoldFrom(s, i).Some?
    requires j' < FindBoldFrom(s, i).value.start + 2 + |FindBoldFrom(s, i).value.group|
    ensures !BoldAt(s, FindBoldFrom(s, i).value.start, j')
    decreases |s| - i
  {
    if !(s[i] == '*' && s[i + 1] == '*' && CloseFrom(s, i + 2, i + 3).Some?) {
      FindBoldFromShortest(s, i + 1, j');
    } else {
      BoldAtIsClose(s, i, i + 2);
    }
  }

  /** Leftmost: no match at all starts at or after `i` and before the one `find` returns
      (or anywhere at or after `i` when it returns nothing). */
  lemma {:induction false} FindBoldFromLeftmost(s: string, i: nat, p: nat, j: nat)
    requires i <= p
    requires FindBoldFrom(s, i).None? || p < FindBoldFrom(s, i).value.start
    ensures !BoldAt(s, p, j)
    decreases |s| - i
  {
    if i + 2 <= |s| && !(s[i] == '*' && s[i + 1] == '*' && CloseFrom(s, i + 2, i + 3).Some?) {
      if p == i {
        BoldAtIsClose(s, i, i + 2);
      } else {
        FindBoldFromLeftmost(s, i + 1, p, j);
      }
    }
  }

  /** `boldPattern.find(line)`. */
  function FindBold(s: string): Option<BoldMatch> {
    FindBoldFrom(s, 0)
  }

  /** The first occurrence of a match's text is the match itself, so `substringAfter(match.value)`
      cuts the line right after the match; what came before the match is dropped. */
  lemma SubstringAfterMatch(s: string)
    requires FindBold(s).Some?
    ensures var m := FindBold(s).value;
      IndexOfFrom(s, MatchValue(m), 0) == m.start
      && SubstringAfter(s, MatchValue(m)) == s[m.start + |MatchValue(m)|..]
  {
    var m := FindBold(s).value;
    var v := MatchValue(m);
    assert OccursAt(s, v, m.start) by {
      FindBoldFromMatches(s, 0);
      MatchOccurs(s, m.start, m.group);
    }
    var r := IndexOfFrom(s, v, 0);
    IndexOfFromIsFirst(s, v, 0);
    if 0 <= r < m.start {
      NoOccurrenceBefore(s, r);
    }
  }

  /** The text of the match `find` returns occurs nowhere before the match. */
  lemma NoOccurrenceBefore(s: string, r: nat)
    requires FindBold(s).Some? && r < FindBold(s).value.start
    ensures !OccursAt(s, MatchValue(FindBold(s).value), r)
  {
    var m := FindBold(s).value;
    var g := m.group;
    if OccursAt(s, MatchValue(m), r) {
      assert |g| > 0 && NoLineTerminator(g) by {
        FindBoldFromMatches(s, 0);
      }
      OccurrenceIsMatch(s, g, r);
      FindBoldFromLeftmost(s, 0, r, r + 2 + |g|);
    }
  }

  /** A match's text occurs where the match starts. */
  lemma MatchOccurs(s: string, st: nat, g: string)
    requires BoldAt(s, st, st + 2 + |g|) && g == s[st + 2..st + 2 + |g|]
    ensures OccursAt(s, "**" + g + "**", st)
  {
    var j := st + 2 + |g|;
    assert s[st..j + 2] == s[st..st + 2] + s[st + 2..j] + s[j..j + 2];
  }

  /** Wherever the text of a match occurs, the pattern matches there too. */
  lemma OccurrenceIsMatch(s: string, g: string, r: nat)
    requires |g| > 0 && NoLineTerminator(g) && OccursAt(s, "**" + g + "**", r)
    ensures BoldAt(s, r, r + 2 + |g|)
  {
    var v := "**" + g + "**";
    assert forall k | r <= k < r + |v| :: s[k] == v[k - r];
    assert s[r + 2..r + 2 + |g|] == g by {
      forall k | 0 <= k < |g| ensures s[r + 2..r + 2 + |g|][k] == g[k] {
        assert v[2 + k] == g[k];
      }
    }
    assert s[r + 2 + |g|] == v[2 + |g|];
    assert s[r + 3 + |g|] == v[3 + |g|];
  }
}
