/**
 `parseDetails` (PlanActivity.kt): splits the body of one day into an insertion-ordered
 map from section heading to section text. The current heading starts as `"General"`;
 a line holding a bold match `**x**` commits the text gathered so far under the current
 heading, makes `x` the heading and keeps only the text after the match; any other line
 is gathered as it is. Blank lines are dropped first.
 */
module Details {
  import opened Optional
  import opened KotlinText
  import opened OrderedMaps
  import opened Patterns

  /** The default heading for text before the first bold match. */
  const General := "General"

  /** The loop state of `parseDetails` besides `sections`: `currentKey` and `currentContent`. */
  datatype Cursor = Cursor(key: string, content: string)

  const Start := Cursor(General, "")

  /** The entry `sections[currentKey] = currentContent.toString().trim()` writes,
      if `currentContent.isNotEmpty()`. */
  function Pending(cur: Cursor): Option<Entry> {
    if |cur.content| > 0 then Some((cur.key, Trim(cur.content))) else None
  }

  /** What one line does: the entry it commits, if any, and the state after it. */
  datatype LineEffect = LineEffect(commit: Option<Entry>, next: Cursor)

  /** One turn of the `forEach` over the lines. */
  function Advance(cur: Cursor, line: string): LineEffect {
    match FindBold(line)
    case None => LineEffect(None, cur.(content := cur.content + line + "\n"))
    case Some(m) =>
      var remainingText := Trim(SubstringAfter(line, MatchValue(m)));
      LineEffect(Pending(cur), Cursor(m.group, if |remainingText| > 0 then remainingText + "\n" else ""))
  }

  function Commit(m: OrderedMap, e: Option<Entry>): OrderedMap {
    match e
    case None => m
    case Some(kv) => Put(m, kv.0, kv.1)
  }

  /** `sections` once `lines` are processed from the state (`m`, `cur`), the commit after the loop included. */
  function SectionsFrom(m: OrderedMap, cur: Cursor, lines: seq<string>): OrderedMap
    decreases |lines|
  {
    if |lines| == 0 then Commit(m, Pending(cur))
    else
      var e := Advance(cur, lines[0]);
      SectionsFrom(Commit(m, e.commit), e.next, lines[1..])
  }

  /** The value `parseDetails(details, boldPattern)` returns. */
  function DetailsOf(details: string): OrderedMap {
    SectionsFrom([], Start, NonBlankLines(details))
  }

  /** `parseDetails`, with its local `sections` map, `currentKey` and `currentContent` builder. */
  method ParseDetails(details: string) returns (sections: OrderedMap)
    ensures sections == DetailsOf(details)
  {
    sections := [];
    var lines := NonBlankLines(details);
    var currentKey := General;
    var currentContent := "";
    var i := 0;
    while i < |lines|
      invariant 0 <= i <= |lines|
      invariant SectionsFrom(sections, Cursor(currentKey, currentContent), lines[i..]) == DetailsOf(details)
    {
      var line := lines[i];
      ghost var before, cur := sections, Cursor(currentKey, currentContent);
      ghost var e := Advance(cur, line);
      var boldMatch := FindBold(line);
      if boldMatch.Some? {
        if |currentContent| > 0 {
          sections := Put(sections, currentKey, Trim(currentContent));
          currentContent := "";
        }
        assert currentContent == "";
        currentKey := boldMatch.value.group;
        var remainingText := Trim(SubstringAfter(line, MatchValue(boldMatch.value)));
        if |remainingText| > 0 {
          currentContent := currentContent + (remainingText + "\n");
        }
        assert e.next == Cursor(currentKey, if |remainingText| > 0 then remainingText + "\n" else "");
      } else {
        currentContent := currentContent + line + "\n";
      }
      assert SectionsFrom(sections, Cursor(currentKey, currentContent), lines[i + 1..]) == DetailsOf(details) by {
        assert sections == Commit(before, e.commit) && Cursor(currentKey, currentContent) == e.next;
        SectionsStep(before, cur, lines, i);
      }
      i := i + 1;
    }
    if |currentContent| > 0 {
      sections := Put(sections, currentKey, Trim(currentContent));
    }
  }

  /** One turn of the loop in terms of `SectionsFrom`. */
  lemma SectionsStep(m: OrderedMap, cur: Cursor, lines: seq<string>, i: nat)
    requires i < |lines|
    ensures SectionsFrom(m, cur, lines[i..])
      == SectionsFrom(Commit(m, Advance(cur, lines[i]).commit), Advance(cur, lines[i]).next, lines[i + 1..])
  {
    assert lines[i..][1..] == lines[i + 1..];
  }

  function OptionToSeq(e: Option<Entry>): seq<Entry> {
    match e
    case None => []
    case Some(kv) => [kv]
  }

  /** Every commit made from the state `cur` on, in order, the one after the loop included. */
  function CommitsFrom(cur: Cursor, lines: seq<string>): seq<Entry>
    decreases |lines|
  {
    if |lines| == 0 then OptionToSeq(Pending(cur))
    else
      var e := Advance(cur, lines[0]);
      OptionToSeq(e.commit) + CommitsFrom(e.next, lines[1..])
  }

  /** The sections `parseDetails` commits for `details`, in the order it commits them. */
  function Commits(details: string): seq<Entry> {
    CommitsFrom(Start, NonBlankLines(details))
  }

  /** The headings the lines' first bold matches capture, in order. */
  function Captures(lines: seq<string>): seq<string>
  {
    if |lines| == 0 then []
    else (match FindBold(lines[0]) case None => [] case Some(m) => [m.group]) + Captures(lines[1..])
  }

  /** The map is the commits written one after the other into an empty map. */
  lemma {:induction false} SectionsArePuts(m: OrderedMap, cur: Cursor, lines: seq<string>)
    ensures SectionsFrom(m, cur, lines) == PutAll(m, CommitsFrom(cur, lines))
    decreases |lines|
  {
    if |lines| == 0 {
      match Pending(cur)
      case None =>
      case Some(kv) => assert PutAll(m, [kv]) == PutAll(Put(m, kv.0, kv.1), []);
    } else {
      var e := Advance(cur, lines[0]);
      SectionsArePuts(Commit(m, e.commit), e.next, lines[1..]);
      var rest := CommitsFrom(e.next, lines[1..]);
      match e.commit
      case None => assert [] + rest == rest;
      case Some(kv) => assert ([kv] + rest)[1..] == rest;
    }
  }

  /** A repeated heading overwrites: each key holds the text of its last commit, the keys keep
      the order of their first commit, and no key appears twice. */
  lemma DetailsAreLastCommits(details: string, k: string)
    ensures Lookup(DetailsOf(details), k) == LastValue(Commits(details), k)
    ensures Keys(DetailsOf(details)) == NewKeys([], Keys(Commits(details)))
    ensures DistinctKeys(DetailsOf(details))
  {
    SectionsArePuts([], Start, NonBlankLines(details));
    LookupPutAll([], Commits(details), k);
    KeysPutAll([], Commits(details));
  }

  /** A commit holds non-empty trimmed text; its heading is the current one or the capture of a later line. */
  lemma {:induction false} CommitsFromWellFormed(cur: Cursor, lines: seq<string>)
    requires forall k | 0 <= k < |lines| :: !IsBlank(lines[k])
    requires |cur.content| == 0 || !IsBlank(cur.content)
    ensures forall e | e in CommitsFrom(cur, lines) ::
      |e.1| > 0 && IsTrimmed(e.1) && (e.0 == cur.key || e.0 in Captures(lines))
    decreases |lines|
  {
    if |lines| > 0 {
      var e := Advance(cur, lines[0]);
      var line := lines[0];
      match FindBold(line) {
        case None =>
          BlankConcat(cur.content, line);
          BlankConcat(cur.content + line, "\n");
        case Some(m) =>
          var remainingText := Trim(SubstringAfter(line, MatchValue(m)));
          if |remainingText| > 0 {
            BlankConcat(remainingText, "\n");
          }
      }
      CommitsFromWellFormed(e.next, lines[1..]);
      assert Captures(lines) == (match FindBold(line) case None => [] case Some(m) => [m.group]) + Captures(lines[1..]);
    }
  }

  /** Every value is non-empty and trimmed; every key is `"General"` or the capture of a line's
      first bold match. */
  lemma DetailsWellFormed(details: string)
    ensures forall e | e in DetailsOf(details) ::
      |e.1| > 0 && IsTrimmed(e.1) && (e.0 == General || e.0 in Captures(NonBlankLines(details)))
  {
    CommitsFromWellFormed(Start, NonBlankLines(details));
    SectionsArePuts([], Start, NonBlankLines(details));
    EntriesPutAll([], Commits(details));
  }

  /** With no bold line, the content just accumulates. */
  lemma {:induction false} CommitsWithoutBold(cur: Cursor, lines: seq<string>)
    requires forall k | 0 <= k < |lines| :: FindBold(lines[k]).None?
    ensures CommitsFrom(cur, lines) == OptionToSeq(Pending(cur.(content := cur.content + Terminated(lines))))
    decreases |lines|
  {
    if |lines| == 0 {
      assert cur.content + "" == cur.content;
    } else {
      var next := cur.(content := cur.content + lines[0] + "\n");
      assert Advance(cur, lines[0]) == LineEffect(None, next);
      CommitsWithoutBold(next, lines[1..]);
      assert CommitsFrom(cur, lines) == [] + CommitsFrom(next, lines[1..]);
      AppendTerminated(cur.content, lines);
    }
  }

  /** A body without bold markers gives the empty map when blank and otherwise the single
      `"General"` section, its text being the non-blank lines re-joined and trimmed. */
  lemma DetailsWithoutBold(details: string)
    requires forall l | l in NonBlankLines(details) :: FindBold(l).None?
    ensures DetailsOf(details) ==
      if IsBlank(details) then [] else [(General, Trim(Join(NonBlankLines(details), "\n")))]
  {
    var lines := NonBlankLines(details);
    var body := Join(lines, "\n");
    var commits := Commits(details);
    assert commits == if |lines| > 0 then [(General, Trim(body))] else [] by {
      CommitsWithoutBold(Start, lines);
      if |lines| > 0 {
        TerminatedIsJoin(lines);
        TrimDropsTrailingWhitespace(body, '\n');
        assert "" + Terminated(lines) == body + "\n";
      }
    }
    SectionsArePuts([], Start, lines);
    assert PutAll([], commits) == commits;
  }

  /** The body `parseItinerary` hands over is trimmed lines joined by `"\n"`; without bold
      markers it becomes one `"General"` section holding exactly that body. */
  lemma JoinedBodyWithoutBold(body: seq<string>)
    requires forall k | 0 <= k < |body| :: !IsBlank(body[k]) && IsTrimmed(body[k]) && '\n' !in body[k]
    requires forall k | 0 <= k < |body| :: FindBold(body[k]).None?
    ensures DetailsOf(Join(body, "\n")) == if |body| == 0 then [] else [(General, Join(body, "\n"))]
  {
    NonBlankLinesOfJoin(body);
    DetailsWithoutBold(Join(body, "\n"));
    if |body| > 0 {
      JoinTrimmed(body);
    }
  }

  /** On any line with a bold match, from any state: the pending text is committed, the text
      before the match is dropped, and the new section starts with the trimmed text after it. */
  lemma AdvanceOnBold(cur: Cursor, line: string)
    requires FindBold(line).Some?
    ensures var m := FindBold(line).value;
      var remainingText := Trim(line[m.start + |MatchValue(m)|..]);
      Advance(cur, line)
        == LineEffect(Pending(cur), Cursor(m.group, if |remainingText| > 0 then remainingText + "\n" else ""))
  {
    SubstringAfterMatch(line);
  }

  /** On a single line with a bold match, the text before the match is dropped and only the
      trimmed text after it is kept, under the captured heading. */
  lemma BoldLineKeepsRemainder(line: string)
    requires !IsBlank(line) && '\n' !in line && FindBold(line).Some?
    ensures var m := FindBold(line).value;
      var remainingText := Trim(line[m.start + |MatchValue(m)|..]);
      DetailsOf(line) == if |remainingText| > 0 then [(m.group, remainingText)] else []
  {
    var m := FindBold(line).value;
    var remainingText := Trim(line[m.start + |MatchValue(m)|..]);
    assert NonBlankLines(line) == [line] by {
      NonBlankLinesOfJoin([line]);
      assert Join([line], "\n") == line;
    }
    var next := Cursor(m.group, if |remainingText| > 0 then remainingText + "\n" else "");
    assert Advance(Start, line) == LineEffect(None, next) by {
      AdvanceOnBold(Start, line);
    }
    assert DetailsOf(line) == SectionsFrom([], next, []) by {
      SectionsStep([], Start, [line], 0);
      assert [line][1..] == [];
    }
    if |remainingText| > 0 {
      TrimDropsTrailingWhitespace(remainingText, '\n');
      TrimIdempotent(line[m.start + |MatchValue(m)|..]);
    }
  }
}
