/**
 The Kotlin standard-library string operations the itinerary parser is built
 from (`Char.isWhitespace`, `isBlank`, `trim`, `split`, `joinToString`,
 `replace`, `indexOf`, `substringAfter`), stated over Dafny strings.
 */
module KotlinText {

  /** `Char.isWhitespace()` on the JVM: `Character.isWhitespace(c) || Character.isSpaceChar(c)`,
      that is the ASCII controls TAB..CR and FS..US, and every space, line or paragraph separator. */
  predicate IsWhitespace(c: char) {
    var n := c as int;
    (0x09 <= n <= 0x0D) || (0x1C <= n <= 0x20) || n == 0xA0 || n == 0x1680
    || (0x2000 <= n <= 0x200A) || n == 0x2028 || n == 0x2029 || n == 0x202F
    || n == 0x205F || n == 0x3000
  }

  /** `CharSequence.isBlank()`: every character is whitespace; the empty string is blank. */
  predicate IsBlank(s: string) {
    forall i | 0 <= i < |s| :: IsWhitespace(s[i])
  }

  /** Neither end of `s` is whitespace. */
  predicate IsTrimmed(s: string) {
    |s| == 0 || (!IsWhitespace(s[0]) && !IsWhitespace(s[|s| - 1]))
  }

  /** The leading-whitespace half of `trim`: the suffix of `s` from its first non-whitespace character. */
  function TrimStart(s: string): (r: string)
    ensures |r| <= |s|
    ensures |r| == 0 || !IsWhitespace(r[0])
  {
    if |s| > 0 && IsWhitespace(s[0]) then TrimStart(s[1..]) else s
  }

  /** `TrimStart` drops a blank prefix and keeps the rest. */
  lemma {:induction false} TrimStartIsSuffix(s: string)
    ensures TrimStart(s) == s[|s| - |TrimStart(s)|..]
    ensures IsBlank(s[..|s| - |TrimStart(s)|])
    decreases |s|
  {
    if |s| > 0 && IsWhitespace(s[0]) {
      TrimStartIsSuffix(s[1..]);
      var k := |s| - |TrimStart(s)|;
      assert s[1..][k - 1..] == s[k..];
      assert forall j | 1 <= j < k :: s[j] == s[1..][..k - 1][j - 1];
    }
  }

  /** The trailing-whitespace half of `trim`: the prefix of `s` up to its last non-whitespace character. */
  function TrimEnd(s: string): (r: string)
    ensures |r| <= |s|
    ensures |r| == 0 || !IsWhitespace(r[|r| - 1])
  {
    if |s| > 0 && IsWhitespace(s[|s| - 1]) then TrimEnd(s[..|s| - 1]) else s
  }

  /** `TrimEnd` drops a blank suffix and keeps the rest. */
  lemma {:induction false} TrimEndIsPrefix(s: string)
    ensures TrimEnd(s) == s[..|TrimEnd(s)|]
    ensures IsBlank(s[|TrimEnd(s)|..])
    decreases |s|
  {
    if |s| > 0 && IsWhitespace(s[|s| - 1]) {
      var t := s[..|s| - 1];
      TrimEndIsPrefix(t);
      var k := |TrimEnd(s)|;
      assert t[..k] == s[..k];
      assert forall j | k <= j < |s| - 1 :: s[j] == t[k..][j - k];
    }
  }

  /** `String.trim()`: the longest infix of `s` that neither starts nor ends with whitespace. */
  function Trim(s: string): (r: string)
    ensures IsTrimmed(r)
    ensures |r| == 0 <==> IsBlank(s)
    ensures IsTrimmed(s) ==> r == s
  {
    TrimInfix(s);
    TrimEnd(TrimStart(s))
  }

  lemma TrimInfix(s: string)
    ensures var t := TrimStart(s); var r := TrimEnd(t);
      && IsTrimmed(r)
      && (|r| == 0 <==> IsBlank(s))
  {
    var t := TrimStart(s);
    var r := TrimEnd(t);
    TrimEndIsPrefix(t);
    assert |r| > 0 ==> r[0] == t[0];
    TrimBlank(s);
  }

  lemma TrimBlank(s: string)
    ensures |TrimEnd(TrimStart(s))| == 0 <==> IsBlank(s)
  {
    var t := TrimStart(s);
    var r := TrimEnd(t);
    TrimStartIsSuffix(s);
    TrimEndIsPrefix(t);
    if |r| == 0 {
      assert t[|r|..] == t;
      assert |t| == 0;
      assert s[..|s| - |t|] == s;
    } else {
      assert r[0] == t[0] == s[|s| - |t|];
    }
  }

  /** `trim` only removes characters: none appears that was not in `s`. */
  lemma TrimChars(s: string)
    ensures forall c :: c !in s ==> c !in Trim(s)
  {
    var t := TrimStart(s);
    var r := TrimEnd(t);
    var k := |s| - |t|;
    TrimStartIsSuffix(s);
    TrimEndIsPrefix(t);
    assert forall j | 0 <= j < |r| :: r[j] == s[k + j];
  }

  /** Kotlin's `trim` leaves nothing more to trim. */
  lemma TrimIdempotent(s: string)
    ensures Trim(Trim(s)) == Trim(s)
  {
  }

  /** Whitespace appended to a non-blank string does not survive `trim`. */
  lemma TrimDropsTrailingWhitespace(s: string, c: char)
    requires IsWhitespace(c)
    ensures Trim(s + [c]) == Trim(s)
  {
    if IsBlank(s) {
      BlankConcat(s, [c]);
    } else {
      TrimStartAppend(s, c);
      TrimEndAppend(TrimStart(s), c);
    }
  }

  lemma TrimEndAppend(t: string, c: char)
    requires IsWhitespace(c)
    ensures TrimEnd(t + [c]) == TrimEnd(t)
  {
    var u := t + [c];
    assert u[|u| - 1] == c;
    assert u[..|u| - 1] == t;
  }

  lemma {:induction false} TrimStartAppend(s: string, c: char)
    requires !IsBlank(s)
    ensures TrimStart(s + [c]) == TrimStart(s) + [c]
    decreases |s|
  {
    if IsWhitespace(s[0]) {
      assert (s + [c])[1..] == s[1..] + [c];
      assert !IsBlank(s[1..]) by {
        var i :| 0 <= i < |s| && !IsWhitespace(s[i]);
        assert s[1..][i - 1] == s[i];
      }
      TrimStartAppend(s[1..], c);
    }
  }

  /** Index of the first `c` in `s`, or `|s|` when `s` holds no `c`. */
  function IndexOfChar(s: string, c: char): (i: nat)
    ensures i <= |s|
    ensures i < |s| ==> s[i] == c
    ensures forall k | 0 <= k < i :: s[k] != c
  {
    if |s| == 0 then 0 else if s[0] == c then 0 else 1 + IndexOfChar(s[1..], c)
  }

  /** `String.split("\n")`: the pieces between line feeds, keeping empty pieces,
      including a leading and a trailing one. */
  function SplitLines(s: string): (lines: seq<string>)
    ensures |lines| >= 1
    ensures forall k | 0 <= k < |lines| :: '\n' !in lines[k]
    decreases |s|
  {
    var i := IndexOfChar(s, '\n');
    assert '\n' !in s[..i];
    if i == |s| then [s] else [s[..i]] + SplitLines(s[i + 1..])
  }

  /** `joinToString(sep)`: the parts with `sep` between neighbours. */
  function Join(parts: seq<string>, sep: string): string
  {
    if |parts| == 0 then ""
    else if |parts| == 1 then parts[0]
    else parts[0] + sep + Join(parts[1..], sep)
  }

  /** What a `StringBuilder` holds after `append("$part\n")` for every part in turn. */
  function Terminated(parts: seq<string>): string
  {
    if |parts| == 0 then "" else parts[0] + "\n" + Terminated(parts[1..])
  }

  /** Appending the first part and its line feed, then the rest, appends all of them. */
  lemma {:induction false} AppendTerminated(c: string, parts: seq<string>)
    requires |parts| > 0
    ensures c + parts[0] + "\n" + Terminated(parts[1..]) == c + Terminated(parts)
  {
    var p, rest := parts[0], Terminated(parts[1..]);
    assert Terminated(parts) == p + "\n" + rest;
    assert c + p + "\n" + rest == c + (p + "\n" + rest);
  }

  /** Splitting on line feeds and joining again with line feeds gives the string back. */
  lemma {:induction false} JoinSplitLines(s: string)
    ensures Join(SplitLines(s), "\n") == s
    decreases |s|
  {
    var i := IndexOfChar(s, '\n');
    if i < |s| {
      var pre, rest := s[..i], s[i + 1..];
      var pieces := SplitLines(rest);
      assert Join(SplitLines(s), "\n") == pre + "\n" + Join(pieces, "\n") by {
        assert SplitLines(s) == [pre] + pieces;
        assert ([pre] + pieces)[1..] == pieces;
      }
      assert Join(pieces, "\n") == rest by {
        JoinSplitLines(rest);
      }
      assert s == pre + "\n" + rest by {
        assert s[i] == '\n';
      }
    }
  }

  /** Joining parts that hold no line feed and splitting again gives the parts back. */
  lemma {:induction false} SplitJoinLines(parts: seq<string>)
    requires |parts| >= 1
    requires forall k | 0 <= k < |parts| :: '\n' !in parts[k]
    ensures SplitLines(Join(parts, "\n")) == parts
    decreases |parts|, 1
  {
    if |parts| == 1 {
      var s := parts[0];
      assert IndexOfChar(s, '\n') == |s|;
    } else {
      SplitJoinLinesCons(parts);
    }
  }

  lemma {:induction false} SplitJoinLinesCons(parts: seq<string>)
    requires |parts| >= 2
    requires forall k | 0 <= k < |parts| :: '\n' !in parts[k]
    ensures SplitLines(Join(parts, "\n")) == parts
    decreases |parts|, 0
  {
    var p := parts[0];
    var rest := Join(parts[1..], "\n");
    assert Join(parts, "\n") == p + "\n" + rest;
    assert SplitLines(p + "\n" + rest) == [p] + SplitLines(rest) by {
      SplitLinesAfter(p, rest);
    }
    assert SplitLines(rest) == parts[1..] by {
      SplitJoinLines(parts[1..]);
    }
    assert [p] + parts[1..] == parts;
  }

  /** A line without line feed followed by a line feed is split off as the first piece. */
  lemma SplitLinesAfter(p: string, rest: string)
    requires '\n' !in p
    ensures SplitLines(p + "\n" + rest) == [p] + SplitLines(rest)
  {
    var s := p + "\n" + rest;
    IndexOfCharAfter(p, rest);
    assert s[..|p|] == p;
    assert s[|p| + 1..] == rest;
  }

  lemma IndexOfCharAfter(p: string, rest: string)
    requires '\n' !in p
    ensures IndexOfChar(p + "\n" + rest, '\n') == |p|
  {
    var s := p + "\n" + rest;
    assert s[|p|] == '\n';
    assert forall k | 0 <= k < |p| :: s[k] == p[k];
  }

  /** A non-empty list appended line by line is its `"\n"`-join plus one final line feed. */
  lemma {:induction false} TerminatedIsJoin(parts: seq<string>)
    requires |parts| >= 1
    ensures Terminated(parts) == Join(parts, "\n") + "\n"
  {
    if |parts| > 1 {
      TerminatedIsJoin(parts[1..]);
    }
  }

  /** A `"\n"`-join is blank exactly when every part is. */
  lemma {:induction false} BlankJoin(parts: seq<string>)
    ensures IsBlank(Join(parts, "\n")) <==> forall l | l in parts :: IsBlank(l)
  {
    if |parts| > 1 {
      var rest := Join(parts[1..], "\n");
      BlankJoin(parts[1..]);
      assert Join(parts, "\n") == parts[0] + ("\n" + rest);
      BlankConcat(parts[0], "\n" + rest);
      BlankConcat("\n", rest);
      assert IsBlank("\n");
      assert forall l :: l in parts <==> l == parts[0] || l in parts[1..];
    } else if |parts| == 1 {
      assert forall l :: l in parts <==> l == parts[0];
    }
  }

  lemma BlankConcat(a: string, b: string)
    ensures IsBlank(a + b) <==> IsBlank(a) && IsBlank(b)
  {
    if IsBlank(a + b) {
      forall i | 0 <= i < |a| ensures IsWhitespace(a[i]) { assert a[i] == (a + b)[i]; }
      forall i | 0 <= i < |b| ensures IsWhitespace(b[i]) { assert b[i] == (a + b)[|a| + i]; }
    }
  }

  /** Trimmed, non-blank lines joined by `"\n"` need no further trimming. */
  lemma {:induction false} JoinTrimmed(parts: seq<string>)
    requires |parts| > 0
    requires forall k | 0 <= k < |parts| :: !IsBlank(parts[k]) && IsTrimmed(parts[k])
    ensures IsTrimmed(Join(parts, "\n")) && |Join(parts, "\n")| > 0
  {
    if |parts| > 1 {
      JoinTrimmed(parts[1..]);
      var rest := Join(parts[1..], "\n");
      var s := parts[0] + "\n" + rest;
      assert s[0] == parts[0][0];
      assert s[|s| - 1] == rest[|rest| - 1];
    }
  }

  /** The `StringBuilder` of trimmed, non-blank lines, each followed by a line feed, trims to
      those lines joined by `"\n"`. */
  lemma TrimTerminated(parts: seq<string>)
    requires forall k | 0 <= k < |parts| :: !IsBlank(parts[k]) && IsTrimmed(parts[k])
    ensures Trim(Terminated(parts)) == Join(parts, "\n")
  {
    if |parts| > 0 {
      var j := Join(parts, "\n");
      assert Terminated(parts) == j + "\n" by { TerminatedIsJoin(parts); }
      assert Trim(j + "\n") == Trim(j) by { TrimDropsTrailingWhitespace(j, '\n'); }
      assert IsTrimmed(j) by { JoinTrimmed(parts); }
    } else {
      assert |Trim("")| == 0;
    }
  }

  /** `filter { it.isNotBlank() }`: the non-blank elements, in order. */
  function NonBlank(lines: seq<string>): (r: seq<string>)
    ensures |r| <= |lines|
    ensures forall k | 0 <= k < |r| :: !IsBlank(r[k])
    ensures forall l | l in r :: l in lines
    ensures |r| == 0 <==> forall l | l in lines :: IsBlank(l)
  {
    if |lines| == 0 then []
    else
      assert forall l :: l in lines <==> l == lines[0] || l in lines[1..];
      (if IsBlank(lines[0]) then [] else [lines[0]]) + NonBlank(lines[1..])
  }

  /** Every non-blank element is kept. */
  lemma {:induction false} NonBlankKeepsNonBlank(lines: seq<string>)
    ensures forall k | 0 <= k < |lines| :: !IsBlank(lines[k]) ==> lines[k] in NonBlank(lines)
    decreases |lines|
  {
    if |lines| > 0 {
      NonBlankKeepsNonBlank(lines[1..]);
      forall k | 1 <= k < |lines| ensures lines[k] == lines[1..][k - 1] { }
    }
  }

  /** The filter keeps order: the kept elements of `a + b` are those of `a` followed by those of `b`. */
  lemma {:induction false} NonBlankConcat(a: seq<string>, b: seq<string>)
    ensures NonBlank(a + b) == NonBlank(a) + NonBlank(b)
    decreases |a|
  {
    if |a| == 0 {
      assert a + b == b;
    } else {
      assert (a + b)[0] == a[0];
      assert (a + b)[1..] == a[1..] + b;
      NonBlankConcat(a[1..], b);
    }
  }

  /** The filter keeps each non-blank element as often as it occurs, and no blank one. */
  lemma {:induction false} NonBlankCounts(lines: seq<string>)
    ensures forall l :: multiset(NonBlank(lines))[l] == if IsBlank(l) then 0 else multiset(lines)[l]
    decreases |lines|
  {
    if |lines| > 0 {
      NonBlankCounts(lines[1..]);
      assert lines == [lines[0]] + lines[1..];
      assert multiset(lines) == multiset([lines[0]]) + multiset(lines[1..]);
    }
  }

  /** `s.split("\n").filter { it.isNotBlank() }`: the non-blank lines of `s`, none holding a line feed;
      there are none exactly when `s` itself is blank. */
  function NonBlankLines(s: string): (lines: seq<string>)
    ensures forall k | 0 <= k < |lines| :: !IsBlank(lines[k]) && '\n' !in lines[k]
    ensures |lines| == 0 <==> IsBlank(s)
  {
    var pieces := SplitLines(s);
    JoinSplitLines(s);
    BlankJoin(pieces);
    var r := NonBlank(pieces);
    assert forall k | 0 <= k < |r| :: r[k] in pieces;
    r
  }

  /** Parts that are non-blank and hold no line feed come back unchanged from joining and re-splitting. */
  lemma NonBlankLinesOfJoin(parts: seq<string>)
    requires forall k | 0 <= k < |parts| :: !IsBlank(parts[k]) && '\n' !in parts[k]
    ensures NonBlankLines(Join(parts, "\n")) == parts
  {
    if |parts| > 0 {
      SplitJoinLines(parts);
      NonBlankKeepsAll(parts);
    } else {
      assert SplitLines("") == [""];
    }
  }

  lemma {:induction false} NonBlankKeepsAll(lines: seq<string>)
    requires forall k | 0 <= k < |lines| :: !IsBlank(lines[k])
    ensures NonBlank(lines) == lines
  {
    if |lines| > 0 {
      NonBlankKeepsAll(lines[1..]);
    }
  }

  /** No two neighbouring characters are both `*`. */
  predicate NoDoubleStar(s: string) {
    forall i | 0 <= i < |s| - 1 :: !(s[i] == '*' && s[i + 1] == '*')
  }

  /** The characters of `s` other than `*`, in order. */
  function Unstarred(s: string): string
  {
    if |s| == 0 then "" else (if s[0] == '*' then "" else [s[0]]) + Unstarred(s[1..])
  }

  /** `s.replace("**", "")`: removes the non-overlapping occurrences of `**` found scanning left to right.
      Only `*` characters go, every other character stays in order, and no `**` is left behind. */
  function RemoveDoubleStars(s: string): (r: string)
    ensures NoDoubleStar(r)
    ensures Unstarred(r) == Unstarred(s)
    ensures |s| > 0 && s[0] != '*' ==> |r| > 0 && r[0] == s[0]
  {
    if |s| >= 2 && s[0] == '*' && s[1] == '*' then
      assert s[1..][1..] == s[2..];
      RemoveDoubleStars(s[2..])
    else if |s| == 0 then ""
    else
      var rest := RemoveDoubleStars(s[1..]);
      assert ([s[0]] + rest)[1..] == rest;
      [s[0]] + rest
  }

  /** A string with no `**` is left as it is: a lone `*` stays. */
  lemma {:induction false} RemoveDoubleStarsStarFree(s: string)
    requires NoDoubleStar(s)
    ensures RemoveDoubleStars(s) == s
    decreases |s|
  {
    if |s| > 0 {
      assert NoDoubleStar(s[1..]) by {
        forall i | 0 <= i < |s[1..]| - 1 ensures !(s[1..][i] == '*' && s[1..][i + 1] == '*') {
          assert s[1..][i] == s[i + 1] && s[1..][i + 1] == s[i + 2];
        }
      }
      RemoveDoubleStarsStarFree(s[1..]);
      RemoveKeeps(s[0], s[1..]);
      assert [s[0]] + s[1..] == s;
    }
  }

  /** `n` copies of `*`. */
  function Stars(n: nat): (r: string)
    ensures |r| == n
    ensures forall i | 0 <= i < n :: r[i] == '*'
  {
    if n == 0 then "" else "*" + Stars(n - 1)
  }

  /** The length of the run of `*` that `s` starts with. */
  function LeadingStars(s: string): (n: nat)
    ensures n <= |s|
    ensures forall i | 0 <= i < n :: s[i] == '*'
    ensures n < |s| ==> s[n] != '*'
    ensures n == 0 <==> |s| == 0 || s[0] != '*'
  {
    if |s| > 0 && s[0] == '*' then 1 + LeadingStars(s[1..]) else 0
  }

  /** What is left of `n` after taking pairs away, one pair at a time. */
  function Parity(n: nat): nat
  {
    if n < 2 then n else Parity(n - 2)
  }

  /** Taking pairs away leaves the remainder of `n` by 2. */
  lemma {:induction false} ParityIsRemainder(n: nat)
    ensures Parity(n) == n % 2
    decreases n
  {
    if n >= 2 {
      ParityIsRemainder(n - 2);
      assert (n - 2) % 2 == n % 2;
    }
  }

  /** A reading of `replace("**", "")` run by run: each maximal run of `n` stars shrinks to
      `Parity(n)` (that is `n % 2`) stars, so a lone `*` stays, and every other character stays
      where it is. */
  function CollapseStarRuns(s: string): string
    decreases |s|
  {
    if |s| == 0 then ""
    else if s[0] == '*' then
      var n := LeadingStars(s);
      Stars(Parity(n)) + CollapseStarRuns(s[n..])
    else [s[0]] + CollapseStarRuns(s[1..])
  }

  /** A leading `**` is removed. */
  lemma RemovePair(u: string)
    ensures RemoveDoubleStars("**" + u) == RemoveDoubleStars(u)
  {
    var s := "**" + u;
    assert s[2..] == u;
  }

  /** A character that does not start a `**` pair is kept. */
  lemma RemoveKeeps(c: char, t: string)
    requires c != '*' || |t| == 0 || t[0] != '*'
    ensures RemoveDoubleStars([c] + t) == [c] + RemoveDoubleStars(t)
  {
    var s := [c] + t;
    assert s[1..] == t;
  }

  lemma StarsPair(n: nat, t: string)
    requires n >= 2
    ensures Stars(n) + t == "**" + (Stars(n - 2) + t)
  {
    assert Stars(n) == "*" + ("*" + Stars(n - 2));
  }

  /** Removing pairs from a run of `n` stars that ends before a non-star leaves `Parity(n)` of them. */
  lemma {:induction false} RemoveStarRun(n: nat, t: string)
    requires |t| == 0 || t[0] != '*'
    ensures RemoveDoubleStars(Stars(n) + t) == Stars(Parity(n)) + RemoveDoubleStars(t)
    decreases n
  {
    if n >= 2 {
      StarsPair(n, t);
      RemovePair(Stars(n - 2) + t);
      RemoveStarRun(n - 2, t);
    } else if n == 1 {
      assert Stars(1) + t == ['*'] + t by { assert Stars(1) == ['*']; }
      RemoveKeeps('*', t);
    } else {
      assert Stars(0) + t == t by { assert Stars(0) == ""; }
    }
  }

  /** `replace("**", "")` is the run-by-run reading: it removes `**` pairs only. */
  lemma {:induction false} RemoveDoubleStarsByRuns(s: string)
    ensures RemoveDoubleStars(s) == CollapseStarRuns(s)
    decreases |s|
  {
    if |s| > 0 {
      if s[0] == '*' {
        var n := LeadingStars(s);
        assert s == Stars(n) + s[n..];
        RemoveStarRun(n, s[n..]);
        RemoveDoubleStarsByRuns(s[n..]);
      } else {
        RemoveDoubleStarsByRuns(s[1..]);
      }
    }
  }

  /** The exact-match side of `indexOf`: `pat` occurs in `s` at position `k`. */
  predicate OccursAt(s: string, pat: string, k: nat) {
    k + |pat| <= |s| && s[k..k + |pat|] == pat
  }

  /** `s.indexOf(pat, from)`: the first position at or after `from` where `pat` occurs, or -1. */
  function IndexOfFrom(s: string, pat: string, from: nat): (r: int)
    ensures r == -1 || (from <= r && r + |pat| <= |s|)
    decreases |s| - from
  {
    if from + |pat| > |s| then -1
    else if s[from..from + |pat|] == pat then from
    else IndexOfFrom(s, pat, from + 1)
  }

  /** `indexOf` finds an occurrence, and no occurrence comes before it; -1 means there is none. */
  lemma {:induction false} IndexOfFromIsFirst(s: string, pat: string, from: nat)
    ensures var r := IndexOfFrom(s, pat, from);
      && (r == -1 || OccursAt(s, pat, r))
      && forall k: nat | from <= k && (r == -1 || k < r) :: !OccursAt(s, pat, k)
    decreases |s| - from
  {
    if from + |pat| <= |s| && s[from..from + |pat|] != pat {
      IndexOfFromIsFirst(s, pat, from + 1);
    }
  }

  /** `s.substringAfter(delimiter)`: what follows the first occurrence of `delimiter`,
      or the whole of `s` when it does not occur. */
  function SubstringAfter(s: string, delimiter: string): string
  {
    var i := IndexOfFrom(s, delimiter, 0);
    if i < 0 then s else s[i + |delimiter|..]
  }
}
