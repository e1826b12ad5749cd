/**
 `parseItinerary` (PlanActivity.kt): one pass over the non-blank, trimmed lines of the
 itinerary text. Lines before the first day heading form the introduction; each day heading
 opens a day whose body is the lines up to the next heading, and a day is kept only when its
 body is not empty. When no day is kept and the text is not blank, the whole text becomes a
 single `"Day 1:"` plan.
 */
module Itinerary {
  import opened KotlinText
  import opened OrderedMaps
  import opened Patterns
  import opened Details

  /** `DayPlan(day, details)`. */
  datatype DayPlan = DayPlan(day: string, details: OrderedMap)

  /** `ParsedItinerary(intro, plans)`. */
  datatype ParsedItinerary = ParsedItinerary(intro: string, plans: seq<DayPlan>)

  /** The label of the plan made up when no day is kept. */
  const FallbackDay := "Day 1:"

  /** A flushed day before its body is split into sections: the label and the body lines. */
  datatype DayBlock = DayBlock(day: string, body: seq<string>)

  /** The plan `parseItinerary` adds for a flushed day: `parseDetails(body.joinToString("\n"))`. */
  function PlanOf(b: DayBlock): DayPlan {
    DayPlan(b.day, DetailsOf(Join(b.body, "\n")))
  }

  /** `PlanOf` on every block, in order. */
  function PlansOf(bs: seq<DayBlock>): (ps: seq<DayPlan>)
    ensures |ps| == |bs|
    ensures forall k | 0 <= k < |bs| :: ps[k] == PlanOf(bs[k])
  {
    if |bs| == 0 then [] else [PlanOf(bs[0])] + PlansOf(bs[1..])
  }

  /** The loop state of `parseItinerary`: `introBuilder`, the days flushed into `dayPlans`
      (as blocks; `parseDetails` is pure, so each becomes its plan through `PlanOf`),
      `currentDay` and `currentDetails`. */
  datatype Scan = Scan(intro: string, blocks: seq<DayBlock>, currentDay: string, currentDetails: seq<string>)

  const Empty := Scan("", [], "", [])

  /** A day is flushed only when there is a current day and its body is not empty. */
  predicate HasOpenDay(st: Scan) {
    |st.currentDay| > 0 && |st.currentDetails| > 0
  }

  /** The flushed days after the flush of the current day, if there is one to flush. */
  function Flushed(st: Scan): seq<DayBlock> {
    if HasOpenDay(st) then st.blocks + [DayBlock(st.currentDay, st.currentDetails)]
    else st.blocks
  }

  /** One turn of the `forEach` over the lines. */
  function Step(st: Scan, line: string): Scan {
    var trimmedLine := Trim(line);
    if IsDayHeading(trimmedLine) then
      Scan(st.intro, Flushed(st), RemoveDoubleStars(trimmedLine),
        if HasOpenDay(st) then [] else st.currentDetails)
    else if |st.currentDay| > 0 then st.(currentDetails := st.currentDetails + [trimmedLine])
    else st.(intro := st.intro + trimmedLine + "\n")
  }

  /** The state after the lines. */
  function Run(st: Scan, lines: seq<string>): Scan
    decreases |lines|
  {
    if |lines| == 0 then st else Run(Step(st, lines[0]), lines[1..])
  }

  /** The value `parseItinerary(itinerary)` returns. */
  function ItineraryOf(itinerary: string): ParsedItinerary {
    var st := Run(Empty, NonBlankLines(itinerary));
    var dayPlans := PlansOf(Flushed(st));
    ParsedItinerary(Trim(st.intro),
      if |dayPlans| == 0 && !IsBlank(itinerary) then [DayPlan(FallbackDay, DetailsOf(Trim(itinerary)))]
      else dayPlans)
  }

  /** `parseItinerary`: the loop over the lines, the flush of the last day and the fallback plan. */
  method ParseItinerary(itinerary: string) returns (result: ParsedItinerary)
    ensures result == ItineraryOf(itinerary)
  {
    var introBuilder, dayPlans, currentDay, currentDetails, blocks := ScanLines(NonBlankLines(itinerary));
    ghost var final := Scan(introBuilder, blocks, currentDay, currentDetails);
    if |currentDay| > 0 && |currentDetails| > 0 {
      var detailsMap := ParseDetails(Join(currentDetails, "\n"));
      dayPlans := dayPlans + [DayPlan(currentDay, detailsMap)];
      PlansOfSnoc(blocks, DayBlock(currentDay, currentDetails));
    }
    assert dayPlans == PlansOf(Flushed(final));
    var introText := Trim(introBuilder);
    if |dayPlans| == 0 && !IsBlank(itinerary) {
      var detailsMap := ParseDetails(Trim(itinerary));
      dayPlans := dayPlans + [DayPlan(FallbackDay, detailsMap)];
    }
    result := ParsedItinerary(introText, dayPlans);
    ItineraryOfFinal(itinerary, final);
  }

  /** The `forEach` of `parseItinerary` over the lines, flushing each day whose body is not empty
      through `ParseDetails` when the next heading comes. */
  method ScanLines(lines: seq<string>)
    returns (introBuilder: string, dayPlans: seq<DayPlan>, currentDay: string, currentDetails: seq<string>,
             ghost blocks: seq<DayBlock>)
    ensures Scan(introBuilder, blocks, currentDay, currentDetails) == Run(Empty, lines)
    ensures dayPlans == PlansOf(blocks)
  {
    introBuilder, dayPlans, blocks, currentDay, currentDetails := "", [], [], "", [];
    var i := 0;
    while i < |lines|
      invariant 0 <= i <= |lines|
      invariant Run(Scan(introBuilder, blocks, currentDay, currentDetails), lines[i..]) == Run(Empty, lines)
      invariant dayPlans == PlansOf(blocks)
    {
      ghost var st := Scan(introBuilder, blocks, currentDay, currentDetails);
      RunStep(st, lines, i);
      var trimmedLine := Trim(lines[i]);
      if IsDayHeading(trimmedLine) {
        if |currentDay| > 0 && |currentDetails| > 0 {
          var detailsMap := ParseDetails(Join(currentDetails, "\n"));
          dayPlans := dayPlans + [DayPlan(currentDay, detailsMap)];
          PlansOfSnoc(blocks, DayBlock(currentDay, currentDetails));
          blocks := blocks + [DayBlock(currentDay, currentDetails)];
          currentDetails := [];
        }
        currentDay := RemoveDoubleStars(trimmedLine);
      } else if |currentDay| > 0 {
        currentDetails := currentDetails + [trimmedLine];
      } else {
        introBuilder := introBuilder + trimmedLine + "\n";
      }
      i := i + 1;
    }
    assert lines[i..] == [];
  }

  /** `ItineraryOf` in terms of the state the loop ends in. */
  lemma {:induction false} ItineraryOfFinal(itinerary: string, st: Scan)
    requires st == Run(Empty, NonBlankLines(itinerary))
    ensures ItineraryOf(itinerary) == ParsedItinerary(Trim(st.intro),
      if |Flushed(st)| == 0 && !IsBlank(itinerary) then [DayPlan(FallbackDay, DetailsOf(Trim(itinerary)))]
      else PlansOf(Flushed(st)))
  {
  }

  lemma {:induction false} PlansOfSnoc(bs: seq<DayBlock>, b: DayBlock)
    ensures PlansOf(bs + [b]) == PlansOf(bs) + [PlanOf(b)]
  {
  }

  /** One turn of the loop in terms of `Run`. */
  lemma {:induction false} RunStep(st: Scan, lines: seq<string>, i: nat)
    requires i < |lines|
    ensures Run(st, lines[i..]) == Run(Step(st, lines[i]), lines[i + 1..])
  {
    assert lines[i..][1..] == lines[i + 1..];
  }

  // The same result described line block by line block, without the loop state.

  /** `lines.map { it.trim() }`. */
  function TrimAll(lines: seq<string>): (r: seq<string>)
    ensures |r| == |lines|
    ensures forall k | 0 <= k < |lines| :: r[k] == Trim(lines[k])
  {
    if |lines| == 0 then [] else [Trim(lines[0])] + TrimAll(lines[1..])
  }

  /** The lines before the first day heading (`takeWhile`). */
  function BeforeHeading(tls: seq<string>): seq<string>
  {
    if |tls| == 0 || IsDayHeading(tls[0]) then [] else [tls[0]] + BeforeHeading(tls[1..])
  }

  /** The lines from the first day heading on (`dropWhile`); they start with a heading if there are any. */
  function FromHeading(tls: seq<string>): (r: seq<string>)
    ensures |r| <= |tls|
    ensures |r| == 0 || IsDayHeading(r[0])
  {
    if |tls| == 0 || IsDayHeading(tls[0]) then tls else FromHeading(tls[1..])
  }

  /** The two halves put back together give the lines, and the first holds no day heading. */
  lemma {:induction false} SplitAtHeading(tls: seq<string>)
    ensures BeforeHeading(tls) + FromHeading(tls) == tls
    ensures forall k | 0 <= k < |BeforeHeading(tls)| :: !IsDayHeading(BeforeHeading(tls)[k])
  {
    if |tls| > 0 && !IsDayHeading(tls[0]) {
      SplitAtHeading(tls[1..]);
      assert BeforeHeading(tls) == [tls[0]] + BeforeHeading(tls[1..]);
      assert [tls[0]] + BeforeHeading(tls[1..]) + FromHeading(tls[1..]) == [tls[0]] + tls[1..];
    }
  }

  /** The days of trimmed lines that start with a day heading: each heading with the lines
      up to the next heading as its body; a heading with an empty body gives no day. */
  function Blocks(tls: seq<string>): seq<DayBlock>
    requires |tls| == 0 || IsDayHeading(tls[0])
    decreases |tls|
  {
    if |tls| == 0 then []
    else
      var body := BeforeHeading(tls[1..]);
      (if |body| > 0 then [DayBlock(RemoveDoubleStars(tls[0]), body)] else [])
      + Blocks(FromHeading(tls[1..]))
  }

  /** The labels of the days, in order. */
  function Labels(bs: seq<DayBlock>): seq<string>
  {
    if |bs| == 0 then [] else [bs[0].day] + Labels(bs[1..])
  }

  /** The labels of the day headings among `tls`, in order. */
  function HeadingLabels(tls: seq<string>): seq<string>
  {
    if |tls| == 0 then []
    else (if IsDayHeading(tls[0]) then [RemoveDoubleStars(tls[0])] else []) + HeadingLabels(tls[1..])
  }

  /** The labels of the plans, in order. */
  function Days(plans: seq<DayPlan>): (ds: seq<string>)
    ensures |ds| == |plans|
    ensures forall k | 0 <= k < |plans| :: ds[k] == plans[k].day
  {
    if |plans| == 0 then [] else [plans[0].day] + Days(plans[1..])
  }

  /** `a` is `b` with some elements left out, the rest in order. */
  predicate IsSubsequence(a: seq<string>, b: seq<string>)
    decreases |b|
  {
    |a| == 0 || (|b| > 0 && ((a[0] == b[0] && IsSubsequence(a[1..], b[1..])) || IsSubsequence(a, b[1..])))
  }

  /** The trimmed, non-blank lines of the itinerary. */
  function TrimmedLines(itinerary: string): seq<string> {
    TrimAll(NonBlankLines(itinerary))
  }

  /** Trimming the non-blank lines leaves them trimmed and non-blank. */
  lemma {:induction false} TrimmedLinesWellFormed(itinerary: string)
    ensures forall k | 0 <= k < |TrimmedLines(itinerary)| ::
      var t := TrimmedLines(itinerary)[k]; IsTrimmed(t) && Trim(t) == t && !IsBlank(t)
  {
    var lines := NonBlankLines(itinerary);
    forall k | 0 <= k < |lines| ensures IsTrimmed(Trim(lines[k])) && Trim(Trim(lines[k])) == Trim(lines[k]) && !IsBlank(Trim(lines[k])) {
      TrimIdempotent(lines[k]);
    }
  }

  /** `parseItinerary` trims each line itself, so trimming beforehand changes nothing. */
  lemma {:induction false} RunTrimAll(st: Scan, lines: seq<string>)
    ensures Run(st, lines) == Run(st, TrimAll(lines))
    decreases |lines|
  {
    if |lines| > 0 {
      TrimIdempotent(lines[0]);
      assert Step(st, lines[0]) == Step(st, Trim(lines[0]));
      RunTrimAll(Step(st, lines[0]), lines[1..]);
      assert TrimAll(lines)[1..] == TrimAll(lines[1..]);
    }
  }

  /** A day heading closes the current day and opens a new one with an empty body. */
  lemma {:induction false} StepOnHeading(st: Scan, t: string)
    requires Trim(t) == t && IsDayHeading(t)
    ensures Step(st, t) == Scan(st.intro, Flushed(st), RemoveDoubleStars(t), if HasOpenDay(st) then [] else st.currentDetails)
    ensures |RemoveDoubleStars(t)| > 0
  {
    HeadingLabelNonEmpty(t);
  }

  /** Any other line joins the body of the open day. */
  lemma {:induction false} StepOnBody(st: Scan, t: string)
    requires Trim(t) == t && !IsDayHeading(t) && |st.currentDay| > 0
    ensures Step(st, t) == st.(currentDetails := st.currentDetails + [t])
  {
  }

  /** Any other line before the first heading joins the introduction. */
  lemma {:induction false} StepOnIntro(st: Scan, t: string)
    requires Trim(t) == t && !IsDayHeading(t) && |st.currentDay| == 0
    ensures Step(st, t) == st.(intro := st.intro + t + "\n")
  {
  }

  /** Before the first heading every line goes to the introduction, each followed by a line feed. */
  lemma {:induction false} IntroRun(intro: string, tls: seq<string>)
    requires forall k | 0 <= k < |tls| :: Trim(tls[k]) == tls[k]
    ensures Run(Scan(intro, [], "", []), tls)
         == Run(Scan(intro + Terminated(BeforeHeading(tls)), [], "", []), FromHeading(tls))
    decreases |tls|
  {
    if |tls| > 0 && !IsDayHeading(tls[0]) {
      var intro' := intro + tls[0] + "\n";
      assert Run(Scan(intro, [], "", []), tls) == Run(Scan(intro', [], "", []), tls[1..]) by {
        StepOnIntro(Scan(intro, [], "", []), tls[0]);
      }
      IntroRun(intro', tls[1..]);
      var before := BeforeHeading(tls);
      assert before == [tls[0]] + BeforeHeading(tls[1..]);
      assert before[1..] == BeforeHeading(tls[1..]);
      AppendTerminated(intro, before);
    } else {
      assert intro + Terminated([]) == intro;
    }
  }

  /** Once a day is open, the lines up to the next heading join its body and the rest
      make the days `Blocks` describes; the introduction no longer changes. */
  lemma {:induction false} DayRun(st: Scan, tls: seq<string>)
    requires |st.currentDay| > 0
    requires forall k | 0 <= k < |tls| :: Trim(tls[k]) == tls[k]
    ensures Flushed(Run(st, tls))
         == Flushed(st.(currentDetails := st.currentDetails + BeforeHeading(tls))) + Blocks(FromHeading(tls))
    ensures Run(st, tls).intro == st.intro
    decreases |tls|, 1
  {
    if |tls| == 0 {
      assert st.currentDetails + [] == st.currentDetails;
      assert st.(currentDetails := st.currentDetails + []) == st;
      assert Flushed(st) + [] == Flushed(st);
    } else if IsDayHeading(tls[0]) {
      DayRunFromHeading(st, tls);
      assert BeforeHeading(tls) == [] && FromHeading(tls) == tls;
      assert st.currentDetails + [] == st.currentDetails;
      assert st.(currentDetails := st.currentDetails + []) == st;
    } else {
      DayRunFromBody(st, tls);
    }
  }

  /** `DayRun` when the next line is not a heading: it joins the body of the open day. */
  lemma {:induction false} DayRunFromBody(st: Scan, tls: seq<string>)
    requires |st.currentDay| > 0 && |tls| > 0 && !IsDayHeading(tls[0])
    requires forall k | 0 <= k < |tls| :: Trim(tls[k]) == tls[k]
    ensures Flushed(Run(st, tls))
         == Flushed(st.(currentDetails := st.currentDetails + BeforeHeading(tls))) + Blocks(FromHeading(tls))
    ensures Run(st, tls).intro == st.intro
    decreases |tls|, 0
  {
    var rest := tls[1..];
    var st' := st.(currentDetails := st.currentDetails + [tls[0]]);
    assert Run(st, tls) == Run(st', rest) by {
      StepOnBody(st, tls[0]);
    }
    assert st'.(currentDetails := st'.currentDetails + BeforeHeading(rest))
        == st.(currentDetails := st.currentDetails + BeforeHeading(tls)) by {
      assert BeforeHeading(tls) == [tls[0]] + BeforeHeading(rest);
      ConcatAssoc(st.currentDetails, [tls[0]], BeforeHeading(rest));
    }
    assert FromHeading(tls) == FromHeading(rest);
    DayRun(st', rest);
  }

  /** `DayRun` when the next line is a heading: the open day is flushed and the heading opens the next. */
  lemma {:induction false} DayRunFromHeading(st: Scan, tls: seq<string>)
    requires |st.currentDay| > 0 && |tls| > 0 && IsDayHeading(tls[0])
    requires forall k | 0 <= k < |tls| :: Trim(tls[k]) == tls[k]
    ensures Flushed(Run(st, tls)) == Flushed(st) + Blocks(tls)
    ensures Run(st, tls).intro == st.intro
    decreases |tls|, 0
  {
    var dayLabel := RemoveDoubleStars(tls[0]);
    var st' := Scan(st.intro, Flushed(st), dayLabel, []);
    var rest := tls[1..];
    assert Run(st, tls) == Run(st', rest) && |dayLabel| > 0 by {
      StepOnHeading(st, tls[0]);
    }
    var body := BeforeHeading(rest);
    var block := if |body| > 0 then [DayBlock(dayLabel, body)] else [];
    var later := Blocks(FromHeading(rest));
    var done := Flushed(st);
    DayRun(st', rest);
    assert [] + body == body;
    var open := st'.(currentDetails := [] + body);
    assert open == Scan(st.intro, done, dayLabel, body);
    assert Flushed(open) == done + block;
    assert Flushed(Run(st', rest)) == done + block + later;
    assert Blocks(tls) == block + later;
    ConcatAssoc(done, block, later);
    assert Flushed(Run(st, tls)) == done + Blocks(tls);
  }

  /** Regrouping a concatenation, proved once here rather than in the large proofs above. */
  lemma ConcatAssoc<T>(a: seq<T>, b: seq<T>, c: seq<T>)
    ensures a + b + c == a + (b + c)
  {
  }

  /** The main theorem: the introduction is the trimmed lines before the first heading joined
      by `"\n"`, and the plans are those of the day blocks from the first heading on; only when
      there are none and the text is not blank is the text made into the single `"Day 1:"` plan. */
  lemma {:induction false} ItineraryByBlocks(itinerary: string)
    ensures var tls := TrimmedLines(itinerary);
      var days := Blocks(FromHeading(tls));
      ItineraryOf(itinerary) == ParsedItinerary(Join(BeforeHeading(tls), "\n"),
        if |days| == 0 && !IsBlank(itinerary) then [DayPlan(FallbackDay, DetailsOf(Trim(itinerary)))]
        else PlansOf(days))
  {
    var tls := TrimmedLines(itinerary);
    var st := Run(Empty, NonBlankLines(itinerary));
    assert Flushed(st) == Blocks(FromHeading(tls)) && Trim(st.intro) == Join(BeforeHeading(tls), "\n") by {
      ScanByBlocks(itinerary);
    }
    ItineraryOfFinal(itinerary, st);
  }

  /** The state the loop ends in: the introduction holds the lines before the first heading,
      each followed by a line feed, and the flushed days are the blocks from the first heading on. */
  lemma {:induction false} ScanByBlocks(itinerary: string)
    ensures var tls := TrimmedLines(itinerary);
      var st := Run(Empty, NonBlankLines(itinerary));
      Flushed(st) == Blocks(FromHeading(tls)) && Trim(st.intro) == Join(BeforeHeading(tls), "\n")
  {
    var lines := NonBlankLines(itinerary);
    var tls := TrimmedLines(itinerary);
    var before := BeforeHeading(tls);
    var from := FromHeading(tls);
    var intro := "" + Terminated(before);
    assert Run(Empty, lines) == Run(Scan(intro, [], "", []), from) by {
      TrimmedLinesWellFormed(itinerary);
      RunTrimAll(Empty, lines);
      IntroRun("", tls);
    }
    assert forall k | 0 <= k < |from| :: Trim(from[k]) == from[k] by {
      TrimmedLinesWellFormed(itinerary);
      FromHeadingTrimmed(tls);
    }
    assert Flushed(Run(Scan(intro, [], "", []), from)) == Blocks(from)
        && Run(Scan(intro, [], "", []), from).intro == intro by {
      DaysFromHeading(intro, from);
    }
    assert Trim(intro) == Join(before, "\n") by {
      TrimmedLinesWellFormed(itinerary);
      assert intro == Terminated(before);
      BeforeHeadingTrimmed(tls);
      TrimTerminated(before);
    }
  }

  /** The lines from the first heading on are among the lines, so they are trimmed if those are. */
  lemma {:induction false} FromHeadingTrimmed(tls: seq<string>)
    requires forall k | 0 <= k < |tls| :: Trim(tls[k]) == tls[k]
    ensures forall k | 0 <= k < |FromHeading(tls)| :: Trim(FromHeading(tls)[k]) == FromHeading(tls)[k]
    decreases |tls|
  {
    if |tls| > 0 && !IsDayHeading(tls[0]) {
      FromHeadingTrimmed(tls[1..]);
    }
  }

  /** The lines before the first heading are among the lines, so they are trimmed and not blank if those are. */
  lemma {:induction false} BeforeHeadingTrimmed(tls: seq<string>)
    requires forall k | 0 <= k < |tls| :: !IsBlank(tls[k]) && IsTrimmed(tls[k])
    ensures forall k | 0 <= k < |BeforeHeading(tls)| :: !IsBlank(BeforeHeading(tls)[k]) && IsTrimmed(BeforeHeading(tls)[k])
    decreases |tls|
  {
    if |tls| > 0 && !IsDayHeading(tls[0]) {
      BeforeHeadingTrimmed(tls[1..]);
      assert BeforeHeading(tls) == [tls[0]] + BeforeHeading(tls[1..]);
    }
  }

  /** From the first heading on, the flushed days are the blocks and the introduction stays as it is. */
  lemma {:induction false} DaysFromHeading(intro: string, from: seq<string>)
    requires |from| == 0 || IsDayHeading(from[0])
    requires forall k | 0 <= k < |from| :: Trim(from[k]) == from[k]
    ensures Flushed(Run(Scan(intro, [], "", []), from)) == Blocks(from)
    ensures Run(Scan(intro, [], "", []), from).intro == intro
  {
    if |from| > 0 {
      var st1 := Scan(intro, [], RemoveDoubleStars(from[0]), []);
      var rest := from[1..];
      assert Run(Scan(intro, [], "", []), from) == Run(st1, rest) && |st1.currentDay| > 0 by {
        StepOnHeading(Scan(intro, [], "", []), from[0]);
      }
      var body := BeforeHeading(rest);
      var block := if |body| > 0 then [DayBlock(st1.currentDay, body)] else [];
      assert Flushed(Run(st1, rest)) == block + Blocks(FromHeading(rest)) by {
        DayRun(st1, rest);
        assert [] + body == body;
        assert st1.(currentDetails := [] + body) == Scan(intro, [], st1.currentDay, body);
        assert Flushed(Scan(intro, [], st1.currentDay, body)) == block;
      }
      assert Blocks(from) == block + Blocks(FromHeading(rest));
      assert Run(st1, rest).intro == intro by {
        DayRun(st1, rest);
      }
    }
  }

  // Consequences of the main theorem.

  /** A blank text has no introduction and no plans; the fallback does not fire. */
  lemma {:induction false} BlankItinerary(itinerary: string)
    requires IsBlank(itinerary)
    ensures ItineraryOf(itinerary) == ParsedItinerary("", [])
  {
    assert Trim("") == "";
  }

  /** A text that is not blank always has at least one plan. */
  lemma {:induction false} NonBlankHasPlan(itinerary: string)
    requires !IsBlank(itinerary)
    ensures |ItineraryOf(itinerary).plans| >= 1
  {
    ItineraryByBlocks(itinerary);
  }

  /** When no day is kept — no heading at all, or only headings with empty bodies — the result
      has exactly one plan, `"Day 1:"`, whose details are those of the whole trimmed text. */
  lemma {:induction false} FallbackPlan(itinerary: string)
    requires !IsBlank(itinerary)
    requires |Blocks(FromHeading(TrimmedLines(itinerary)))| == 0
    ensures ItineraryOf(itinerary).plans == [DayPlan(FallbackDay, DetailsOf(Trim(itinerary)))]
  {
    ItineraryByBlocks(itinerary);
  }

  /** With no day heading at all, the whole text is the introduction (as well as the fallback plan). */
  lemma {:induction false} NoHeadingIsIntro(itinerary: string)
    requires forall k | 0 <= k < |TrimmedLines(itinerary)| :: !IsDayHeading(TrimmedLines(itinerary)[k])
    ensures ItineraryOf(itinerary).intro == Join(TrimmedLines(itinerary), "\n")
  {
    ItineraryByBlocks(itinerary);
    NoHeadingAllBefore(TrimmedLines(itinerary));
  }

  lemma {:induction false} NoHeadingAllBefore(tls: seq<string>)
    requires forall k | 0 <= k < |tls| :: !IsDayHeading(tls[k])
    ensures BeforeHeading(tls) == tls
  {
    if |tls| > 0 {
      NoHeadingAllBefore(tls[1..]);
    }
  }

  /** A heading directly followed by another heading gives no day: its label is replaced. */
  lemma {:induction false} ConsecutiveHeadings(tls: seq<string>)
    requires |tls| >= 2 && IsDayHeading(tls[0]) && IsDayHeading(tls[1])
    ensures Blocks(tls) == Blocks(tls[1..])
  {
  }

  /** A day as `parseItinerary` keeps it: a non-empty label without `**` and a non-empty body
      holding no heading. */
  predicate WellFormedBlock(b: DayBlock) {
    |b.day| > 0 && NoDoubleStar(b.day) && |b.body| > 0
    && forall j | 0 <= j < |b.body| :: !IsDayHeading(b.body[j])
  }

  /** Every day has a non-empty label without `**` and a non-empty body holding no heading. */
  lemma {:induction false} BlocksWellFormed(tls: seq<string>)
    requires |tls| == 0 || IsDayHeading(tls[0])
    ensures forall k | 0 <= k < |Blocks(tls)| :: WellFormedBlock(Blocks(tls)[k])
    decreases |tls|
  {
    if |tls| > 0 {
      var rest := tls[1..];
      var body := BeforeHeading(rest);
      var block := if |body| > 0 then [DayBlock(RemoveDoubleStars(tls[0]), body)] else [];
      var later := Blocks(FromHeading(rest));
      assert Blocks(tls) == block + later;
      assert forall k | 0 <= k < |block| :: WellFormedBlock(block[k]) by {
        HeadingLabelNonEmpty(tls[0]);
        SplitAtHeading(rest);
      }
      assert forall k | 0 <= k < |later| :: WellFormedBlock(later[k]) by {
        BlocksWellFormed(FromHeading(rest));
      }
      WellFormedConcat(block, later);
    }
  }

  lemma WellFormedConcat(a: seq<DayBlock>, b: seq<DayBlock>)
    requires forall k | 0 <= k < |a| :: WellFormedBlock(a[k])
    requires forall k | 0 <= k < |b| :: WellFormedBlock(b[k])
    ensures forall k | 0 <= k < |a + b| :: WellFormedBlock((a + b)[k])
  {
    forall k | 0 <= k < |a + b| ensures WellFormedBlock((a + b)[k]) {
      if k >= |a| {
        assert (a + b)[k] == b[k - |a|];
      }
    }
  }

  /** The labels of the days are heading labels, in the order of the headings, each used at most once. */
  lemma {:induction false} BlocksLabels(tls: seq<string>)
    requires |tls| == 0 || IsDayHeading(tls[0])
    ensures IsSubsequence(Labels(Blocks(tls)), HeadingLabels(tls))
    decreases |tls|
  {
    if |tls| > 0 {
      var rest := tls[1..];
      var from := FromHeading(rest);
      BlocksLabels(from);
      HeadingLabelsSkip(rest);
      var tail := Labels(Blocks(from));
      assert HeadingLabels(tls) == [RemoveDoubleStars(tls[0])] + HeadingLabels(from);
      if |BeforeHeading(rest)| > 0 {
        assert Labels(Blocks(tls)) == [RemoveDoubleStars(tls[0])] + tail;
        assert Labels(Blocks(tls))[1..] == tail;
      } else {
        assert Blocks(tls) == Blocks(from);
        SubsequenceCons(tail, RemoveDoubleStars(tls[0]), HeadingLabels(from));
      }
    }
  }

  /** The lines before the first heading contribute no heading label. */
  lemma {:induction false} HeadingLabelsSkip(tls: seq<string>)
    ensures HeadingLabels(tls) == HeadingLabels(FromHeading(tls))
  {
    if |tls| > 0 && !IsDayHeading(tls[0]) {
      HeadingLabelsSkip(tls[1..]);
      assert HeadingLabels(tls) == [] + HeadingLabels(tls[1..]);
    }
  }

  lemma {:induction false} SubsequenceCons(a: seq<string>, x: string, b: seq<string>)
    requires IsSubsequence(a, b)
    ensures IsSubsequence(a, [x] + b)
  {
    assert ([x] + b)[1..] == b;
  }

  /** A subsequence is no longer than the sequence it is taken from. */
  lemma {:induction false} SubsequenceLength(a: seq<string>, b: seq<string>)
    requires IsSubsequence(a, b)
    ensures |a| <= |b|
    decreases |b|
  {
    if |a| > 0 {
      if a[0] == b[0] && IsSubsequence(a[1..], b[1..]) {
        SubsequenceLength(a[1..], b[1..]);
      } else {
        SubsequenceLength(a, b[1..]);
      }
    }
  }

  /** The plans' labels are the days' labels. */
  lemma {:induction false} DaysOfPlans(bs: seq<DayBlock>)
    ensures Days(PlansOf(bs)) == Labels(bs)
  {
    if |bs| > 0 {
      DaysOfPlans(bs[1..]);
      assert PlansOf(bs)[1..] == PlansOf(bs[1..]);
    }
  }

  /** Unless the fallback fired, every plan's label is the label of a day heading of the text,
      in order, never `**`-marked, and there are no more plans than headings. */
  lemma {:induction false} PlanLabels(itinerary: string)
    requires |Blocks(FromHeading(TrimmedLines(itinerary)))| > 0
    ensures var plans := ItineraryOf(itinerary).plans;
      && IsSubsequence(Days(plans), HeadingLabels(TrimmedLines(itinerary)))
      && |plans| <= |HeadingLabels(TrimmedLines(itinerary))|
      && forall k | 0 <= k < |plans| :: |plans[k].day| > 0 && NoDoubleStar(plans[k].day)
  {
    var tls := TrimmedLines(itinerary);
    var bs := Blocks(FromHeading(tls));
    ItineraryByBlocks(itinerary);
    DaysOfPlans(bs);
    BlocksLabels(FromHeading(tls));
    HeadingLabelsSkip(tls);
    SubsequenceLength(Labels(bs), HeadingLabels(tls));
    BlocksWellFormed(FromHeading(tls));
  }
}
