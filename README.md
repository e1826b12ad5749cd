# Itinerary parser and destination rows of the Nobi travel app, in Dafny

Nobi is an Android travel planner written in Kotlin. It asks a language model for an itinerary,
receives plain text, and shows that text as an introduction followed by one card per day, each split
into titled sections. This project models the two pure pieces of the app that its screens and its
cache depend on, and proves what they guarantee.

**The itinerary parser** (`parseItinerary` and `parseDetails` in `PlanActivity.kt`):
- The text is split into lines, and the blank ones are dropped.
- Each line is trimmed and matched against the day-heading regex.
- Lines before the first heading form the introduction.
- Each heading opens a day. Its body is the lines up to the next heading, and the day is kept only if its body is not empty.
- Each day body is then split into sections keyed by the bold `**title**` markers.
- When no day is kept and the text is not blank, the whole text becomes a single `"Day 1:"` plan.

Both functions are modelled as the loops they are, in the modules below:
- `Itinerary.ParseItinerary` and `Itinerary.ScanLines`;
- `Details.ParseDetails`.

Each loop is proved equal to a specification function. Those functions are then related to independent descriptions:
- an itinerary is described by the blocks of lines between its headings;
- a day's details are described by the sequence of writes into an insertion-ordered map.

The Kotlin library behaviour the parser relies on is written out explicitly:
- `Char.isWhitespace`, `trim`, `isBlank`, `split("\n")`, `joinToString`, `replace("**", "")`, `indexOf` and `substringAfter` are in module `KotlinText`;
- `LinkedHashMap` insertion order is in `OrderedMaps`;
- the two `java.util.regex` patterns, with OpenJDK's character classes, each as a decision procedure shown to agree with a piece-by-piece reading of the pattern, are in `Patterns`.

**The destination conversions** (`DestinationEntity.kt`): `toDestination` and `toEntity` copy the five
fields between the screen value `Destination` and the Room row `DestinationEntity`, whose primary key
is `title`. These are modelled as functions in module `Destinations`, with round trips in both
directions, injectivity, and the same facts for the lists the view model and the worker convert.

The Kotlin data classes `DayPlan(day, details)` and `ParsedItinerary(intro, plans)`
(PlanActivity.kt:309-317) are the datatypes `Itinerary.DayPlan` and `Itinerary.ParsedItinerary`,
with the details map as the insertion-ordered `OrderedMaps.OrderedMap`.

Files: `text.dfy` (KotlinText), `ordered_map.dfy` (Optional, OrderedMaps), `patterns.dfy` (Patterns),
`details.dfy` (Details), `itinerary.dfy` (Itinerary), `destinations.dfy` (Destinations).

Two behaviours of the parser worth knowing, both proved below:
- With no day heading at all, the whole text is both the introduction and the details of the fallback `"Day 1:"` plan (`Itinerary.NoHeadingIsIntro`, `Itinerary.FallbackPlan`).
- A heading directly followed by another heading is dropped without a trace (`Itinerary.ConsecutiveHeadings`).

## Model

| member | source | states |
|---|---|---|
| KotlinText.IsWhitespace | app/src/main/java/com/m7019e/nobi/PlanActivity.kt:321 | `Char.isWhitespace`, which `isBlank` and `trim` test: the controls TAB to CR and FS to US, and every space, line or paragraph separator; `TrimStartIsSuffix`, `TrimEndIsPrefix` and `BlankJoin` state what the callers get from it |
| KotlinText.Trim | app/src/main/java/com/m7019e/nobi/PlanActivity.kt:330 | `trim()` leaves no whitespace at either end, is empty exactly for a blank string, and leaves a trimmed string alone |
| KotlinText.TrimStartIsSuffix | app/src/main/java/com/m7019e/nobi/PlanActivity.kt:330 | the leading half of `trim()` removes a blank prefix and keeps the rest of the string |
| KotlinText.TrimEndIsPrefix | app/src/main/java/com/m7019e/nobi/PlanActivity.kt:330 | the trailing half of `trim()` removes a blank suffix and keeps the rest of the string |
| KotlinText.TrimChars | app/src/main/java/com/m7019e/nobi/PlanActivity.kt:330 | `trim()` introduces no character that was not in its input |
| KotlinText.TrimIdempotent | app/src/main/java/com/m7019e/nobi/PlanActivity.kt:330 | trimming twice is trimming once |
| KotlinText.TrimDropsTrailingWhitespace | app/src/main/java/com/m7019e/nobi/PlanActivity.kt:349 | a whitespace character appended to the builder does not survive `trim()` |
| KotlinText.IndexOfChar | app/src/main/java/com/m7019e/nobi/PlanActivity.kt:321 | finds the first line feed, or reports that there is none |
| KotlinText.SplitLines | app/src/main/java/com/m7019e/nobi/PlanActivity.kt:321 | `split("\n")` gives at least one piece, and no piece holds a line feed |
| KotlinText.JoinSplitLines | app/src/main/java/com/m7019e/nobi/PlanActivity.kt:321 | joining the pieces of `split("\n")` with line feeds gives the string back |
| KotlinText.SplitJoinLines | app/src/main/java/com/m7019e/nobi/PlanActivity.kt:333 | splitting a `joinToString("\n")` of lines without line feeds gives the lines back |
| KotlinText.SplitJoinLinesCons | app/src/main/java/com/m7019e/nobi/PlanActivity.kt:333 | the same for two or more lines |
| KotlinText.SplitLinesAfter | app/src/main/java/com/m7019e/nobi/PlanActivity.kt:321 | a piece without line feed followed by a line feed is split off as the first line |
| KotlinText.AppendTerminated | app/src/main/java/com/m7019e/nobi/PlanActivity.kt:341 | appending `"$line\n"` to the builder extends what it holds by one terminated line |
| KotlinText.TerminatedIsJoin | app/src/main/java/com/m7019e/nobi/PlanActivity.kt:341 | a builder of terminated lines holds their `"\n"`-join plus one final line feed |
| KotlinText.BlankJoin | app/src/main/java/com/m7019e/nobi/PlanActivity.kt:321 | a `"\n"`-join is blank exactly when every part is blank |
| KotlinText.BlankConcat | app/src/main/java/com/m7019e/nobi/PlanActivity.kt:321 | a concatenation is blank exactly when both halves are |
| KotlinText.JoinTrimmed | app/src/main/java/com/m7019e/nobi/PlanActivity.kt:333 | trimmed non-blank lines joined by line feeds are non-empty and need no trimming |
| KotlinText.TrimTerminated | app/src/main/java/com/m7019e/nobi/PlanActivity.kt:349 | `introBuilder.toString().trim()` of trimmed non-blank lines is their `"\n"`-join |
| KotlinText.NonBlank | app/src/main/java/com/m7019e/nobi/PlanActivity.kt:321 | `filter { it.isNotBlank() }` keeps only non-blank elements of the list, and is empty exactly when every element is blank |
| KotlinText.NonBlankKeepsNonBlank | app/src/main/java/com/m7019e/nobi/PlanActivity.kt:321 | every non-blank element of the list is kept |
| KotlinText.NonBlankConcat | app/src/main/java/com/m7019e/nobi/PlanActivity.kt:321 | the filter keeps order: the kept elements of `a + b` are those of `a` followed by those of `b` |
| KotlinText.NonBlankCounts | app/src/main/java/com/m7019e/nobi/PlanActivity.kt:321 | each non-blank element is kept exactly as often as it occurs, and no blank one is kept |
| KotlinText.NonBlankLines | app/src/main/java/com/m7019e/nobi/PlanActivity.kt:321 | the non-blank lines hold no line feed, and there are none exactly when the text is blank |
| KotlinText.NonBlankLinesOfJoin | app/src/main/java/com/m7019e/nobi/PlanActivity.kt:363 | `parseDetails` recovers exactly the non-blank, line-feed-free lines `parseItinerary` joined |
| KotlinText.NonBlankKeepsAll | app/src/main/java/com/m7019e/nobi/PlanActivity.kt:363 | filtering lines that are all non-blank keeps them all |
| KotlinText.RemoveDoubleStars | app/src/main/java/com/m7019e/nobi/PlanActivity.kt:337 | `replace("**", "")` leaves no `**`, removes only `*` characters, and keeps a first character that is not `*` |
| KotlinText.RemoveDoubleStarsStarFree | app/src/main/java/com/m7019e/nobi/PlanActivity.kt:337 | a label with no `**` in it is left unchanged, lone `*` characters included |
| KotlinText.RemoveStarRun | app/src/main/java/com/m7019e/nobi/PlanActivity.kt:337 | a run of `n` stars followed by a non-star loses its pairs and keeps `n % 2` stars |
| KotlinText.RemoveDoubleStarsByRuns | app/src/main/java/com/m7019e/nobi/PlanActivity.kt:337 | `replace("**", "")` equals the run-by-run reading `CollapseStarRuns`: each maximal run of `n` stars becomes `n % 2` stars and every other character stays in place |
| KotlinText.CollapseStarRuns | app/src/main/java/com/m7019e/nobi/PlanActivity.kt:337 | the reference reading of `replace("**", "")` that `RemoveDoubleStarsByRuns` proves equal to it: each maximal run of `n` stars kept as `n % 2` stars, all else in place |
| KotlinText.Join | app/src/main/java/com/m7019e/nobi/PlanActivity.kt:333 | `joinToString(sep)`: the parts with `sep` between neighbours; its meaning as the inverse of `split("\n")` is stated by `JoinSplitLines` and `SplitJoinLines` |
| KotlinText.IndexOfFrom | app/src/main/java/com/m7019e/nobi/PlanActivity.kt:375 | `indexOf` returns -1 or a position from which the pattern fits in the string |
| KotlinText.IndexOfFromIsFirst | app/src/main/java/com/m7019e/nobi/PlanActivity.kt:375 | `indexOf` returns an occurrence with no earlier one, and -1 only when there is no occurrence |
| KotlinText.SubstringAfter | app/src/main/java/com/m7019e/nobi/PlanActivity.kt:375 | `substringAfter(delimiter)`: the text after the first occurrence of the delimiter, or the whole string when there is none; `Patterns.SubstringAfterMatch` states what it does on a bold line |
| OrderedMaps.Keys | app/src/main/java/com/m7019e/nobi/PlanActivity.kt:362 | the keys of the map, one per entry, in iteration order |
| OrderedMaps.IndexOfKey | app/src/main/java/com/m7019e/nobi/PlanActivity.kt:371 | the position of the entry for a key, or the map's size, with no earlier entry for that key |
| OrderedMaps.Lookup | app/src/main/java/com/m7019e/nobi/PlanActivity.kt:371 | `m[k]` is present exactly when `k` is a key, and then the entry holds that value |
| OrderedMaps.Put | app/src/main/java/com/m7019e/nobi/PlanActivity.kt:371 | `sections[key] = value` replaces an existing entry where it stands, and appends a new key at the end |
| OrderedMaps.PutKeys | app/src/main/java/com/m7019e/nobi/PlanActivity.kt:371 | after a put, a present key keeps its position and a new key goes last |
| OrderedMaps.PutLookup | app/src/main/java/com/m7019e/nobi/PlanActivity.kt:371 | after a put, the key holds the new value and every other key is unchanged |
| OrderedMaps.PutDistinct | app/src/main/java/com/m7019e/nobi/PlanActivity.kt:371 | a put never creates a second entry for a key |
| OrderedMaps.LookupPutAll | app/src/main/java/com/m7019e/nobi/PlanActivity.kt:371 | after a run of puts, each key holds the value of its last put |
| OrderedMaps.PutAllSnoc | app/src/main/java/com/m7019e/nobi/PlanActivity.kt:384 | the put after the loop extends the run of puts by one |
| OrderedMaps.PutAllLast | app/src/main/java/com/m7019e/nobi/PlanActivity.kt:384 | the last put of a run comes after all the others |
| OrderedMaps.KeysPutAll | app/src/main/java/com/m7019e/nobi/PlanActivity.kt:362-385 | after a run of puts, old keys come first and unmoved, new keys follow in first-put order, and no key repeats |
| OrderedMaps.EntriesPutAll | app/src/main/java/com/m7019e/nobi/PlanActivity.kt:371 | every entry after a run of puts was already in the map or is one of the puts |
| OrderedMaps.EntriesPut | app/src/main/java/com/m7019e/nobi/PlanActivity.kt:371 | every entry after a put was already in the map or is the put itself |
| Patterns.RunEnd | app/src/main/java/com/m7019e/nobi/PlanActivity.kt:327 | a greedy `\s*` or `\d+` run stops within the line, no earlier than where it starts |
| Patterns.RunEndIsRun | app/src/main/java/com/m7019e/nobi/PlanActivity.kt:327 | every character of the run is in the class, and the character after it is not |
| Patterns.RunEndAt | app/src/main/java/com/m7019e/nobi/PlanActivity.kt:327 | a run bounded on the right by a character outside the class ends exactly there |
| Patterns.AllSatisfySlice | app/src/main/java/com/m7019e/nobi/PlanActivity.kt:327 | proof helper for the `\s*` and `\d+` pieces of the heading pattern: a slice is all in a class exactly when each character in that range is |
| Patterns.NoLineTerminatorSlice | app/src/main/java/com/m7019e/nobi/PlanActivity.kt:327 | proof helper for the `.*?` piece of the heading pattern: a slice holds no line terminator exactly when no character in that range is one |
| Patterns.IsDayHeading | app/src/main/java/com/m7019e/nobi/PlanActivity.kt:327-331 | `dayPattern.matches(trimmedLine)` decided left to right; `DayHeadingMatchesPattern` proves it holds exactly when the pattern matches the whole line |
| Patterns.DayHeadingMatchesPattern | app/src/main/java/com/m7019e/nobi/PlanActivity.kt:327-331 | the test `parseItinerary` applies accepts exactly the lines the case-insensitive day-heading pattern matches as a whole |
| Patterns.DayHeadingHasSplit | app/src/main/java/com/m7019e/nobi/PlanActivity.kt:327-331 | an accepted line splits into the pattern's pieces |
| Patterns.SplitIsDayHeading | app/src/main/java/com/m7019e/nobi/PlanActivity.kt:327-331 | a line that splits into the pattern's pieces is accepted |
| Patterns.TailHasNoLineTerminator | app/src/main/java/com/m7019e/nobi/PlanActivity.kt:327 | `.*?` followed by an optional `**` at the end spans a tail without line terminators |
| Patterns.DayHeadingExamples | app/src/main/java/com/m7019e/nobi/PlanActivity.kt:327 | `Day 1: Go` and `**Day 1:** x` are headings, while `Day 1` and `**Day 1**` are not, because `[:\s-]` must follow the number |
| Patterns.HeadingExampleColon | app/src/main/java/com/m7019e/nobi/PlanActivity.kt:327 | `Day 1: Go` is a day heading |
| Patterns.HeadingExampleBold | app/src/main/java/com/m7019e/nobi/PlanActivity.kt:327 | `**Day 1:** x` is a day heading |
| Patterns.HeadingExampleNoSeparator | app/src/main/java/com/m7019e/nobi/PlanActivity.kt:327 | `Day 1` is not a day heading: the class `[:\s-]` must follow the number |
| Patterns.HeadingExampleClosedBold | app/src/main/java/com/m7019e/nobi/PlanActivity.kt:327 | `**Day 1**` is not a day heading: the closing `**` cannot stand in for the separator |
| Patterns.HeadingLabelNonEmpty | app/src/main/java/com/m7019e/nobi/PlanActivity.kt:337 | a heading with its `**` removed is never the empty label, so the day it opens counts as open |
| Patterns.UnstarredKeeps | app/src/main/java/com/m7019e/nobi/PlanActivity.kt:337 | a character other than `*` survives removing the stars |
| Patterns.NoLineTerminatorExtend | app/src/main/java/com/m7019e/nobi/PlanActivity.kt:326 | a `.` run extends over one more character that is not a line terminator |
| Patterns.BoldAtIsClose | app/src/main/java/com/m7019e/nobi/PlanActivity.kt:326 | a bold match at a position is an opening `**` there followed by a non-empty group and a closing `**` |
| Patterns.LineTerminatorBlocks | app/src/main/java/com/m7019e/nobi/PlanActivity.kt:326 | `(.+?)` cannot cross a line terminator |
| Patterns.CloseFrom | app/src/main/java/com/m7019e/nobi/PlanActivity.kt:326 | the lazy group closes at the first `**` it can, and at no earlier position |
| Patterns.FindBoldFrom | app/src/main/java/com/m7019e/nobi/PlanActivity.kt:368 | a match found from a position starts at or after it and lies within the line |
| Patterns.FindBoldFromMatches | app/src/main/java/com/m7019e/nobi/PlanActivity.kt:368-374 | what `find` returns is `**`, the captured group, `**` at the returned position |
| Patterns.FindBoldFromShortest | app/src/main/java/com/m7019e/nobi/PlanActivity.kt:326 | the lazy group: no match at the returned position closes earlier |
| Patterns.FindBoldFromLeftmost | app/src/main/java/com/m7019e/nobi/PlanActivity.kt:368 | no match starts before the one `find` returns, and none at all when it returns null |
| Patterns.FindBold | app/src/main/java/com/m7019e/nobi/PlanActivity.kt:368 | `boldPattern.find(line)`: the search from position 0, so by `FindBoldFromMatches`, `FindBoldFromShortest` and `FindBoldFromLeftmost` the leftmost match with the shortest group, or none when the line has no match |
| Patterns.SubstringAfterMatch | app/src/main/java/com/m7019e/nobi/PlanActivity.kt:375 | the first occurrence of the match's text is the match itself, so `substringAfter` cuts right after the match |
| Patterns.NoOccurrenceBefore | app/src/main/java/com/m7019e/nobi/PlanActivity.kt:368-375 | the text of the match `find` returns occurs nowhere before the match |
| Patterns.MatchOccurs | app/src/main/java/com/m7019e/nobi/PlanActivity.kt:375 | a match's text occurs where the match starts |
| Patterns.OccurrenceIsMatch | app/src/main/java/com/m7019e/nobi/PlanActivity.kt:375 | wherever a match's text occurs, the pattern matches there too |
| Details.Advance | app/src/main/java/com/m7019e/nobi/PlanActivity.kt:367-382 | one turn of the `forEach`: a bold line commits the pending text under the current key and restarts with the group as key and the trimmed remainder; any other line is appended with a line feed |
| Details.DetailsOf | app/src/main/java/com/m7019e/nobi/PlanActivity.kt:361-387 | the value `parseDetails` returns: the non-blank lines run through `Advance` from key `"General"` and empty content, and the last pending text committed; `DetailsAreLastCommits` and `DetailsWellFormed` state what it holds |
| Details.ParseDetails | app/src/main/java/com/m7019e/nobi/PlanActivity.kt:361-387 | the loop over the non-blank lines with its map, current key and content builder returns the sections `DetailsOf` describes |
| Details.SectionsStep | app/src/main/java/com/m7019e/nobi/PlanActivity.kt:367-382 | one loop turn is one step of the specification |
| Details.SectionsArePuts | app/src/main/java/com/m7019e/nobi/PlanActivity.kt:370-385 | the sections are the commits written one after another into the empty map |
| Details.DetailsAreLastCommits | app/src/main/java/com/m7019e/nobi/PlanActivity.kt:362-385 | a repeated heading overwrites: each key holds its last commit, keys keep first-commit order, and no key repeats |
| Details.CommitsFromWellFormed | app/src/main/java/com/m7019e/nobi/PlanActivity.kt:370-385 | each commit's text is non-empty and trimmed, and its key is the current key or a later capture |
| Details.DetailsWellFormed | app/src/main/java/com/m7019e/nobi/PlanActivity.kt:364-385 | every value is non-empty and trimmed, and every key is `"General"` or the group of a line's first bold match |
| Details.CommitsWithoutBold | app/src/main/java/com/m7019e/nobi/PlanActivity.kt:379-381 | without bold lines the content only accumulates |
| Details.DetailsWithoutBold | app/src/main/java/com/m7019e/nobi/PlanActivity.kt:379-385 | a body without bold markers gives no section when blank, and otherwise only `"General"`, holding its non-blank lines re-joined and trimmed |
| Details.JoinedBodyWithoutBold | app/src/main/java/com/m7019e/nobi/PlanActivity.kt:333 | a day body without bold markers becomes the single `"General"` section holding exactly that body |
| Details.AdvanceOnBold | app/src/main/java/com/m7019e/nobi/PlanActivity.kt:368-378 | on any bold line and from any state, the pending text is committed, the text before the match is dropped, and the new section starts under the captured heading with the trimmed text after the match, or empty when that is empty |
| Details.BoldLineKeepsRemainder | app/src/main/java/com/m7019e/nobi/PlanActivity.kt:368-378 | a day body that is a single bold line gives only the captured heading with the trimmed text after the match, or nothing when that text is empty |
| Itinerary.PlansOf | app/src/main/java/com/m7019e/nobi/PlanActivity.kt:333-334 | one plan per flushed day, in order, each the day's label with `parseDetails` of its joined body |
| Itinerary.ItineraryOf | app/src/main/java/com/m7019e/nobi/PlanActivity.kt:319-359 | the value `parseItinerary` returns: the lines run through `Step`, the last day flushed, the intro trimmed, and the fallback plan; `ItineraryByBlocks` states it in terms of the blocks between headings |
| Itinerary.ParseItinerary | app/src/main/java/com/m7019e/nobi/PlanActivity.kt:319-359 | the function returns the value `ItineraryOf` describes |
| Itinerary.ScanLines | app/src/main/java/com/m7019e/nobi/PlanActivity.kt:329-343 | the `forEach` ends in the state `Run` describes, each flushed day parsed into its plan |
| Itinerary.ItineraryOfFinal | app/src/main/java/com/m7019e/nobi/PlanActivity.kt:344-355 | the result in terms of the final loop state: the last day is flushed, the intro is trimmed, and the fallback applies only when no day was kept |
| Itinerary.PlansOfSnoc | app/src/main/java/com/m7019e/nobi/PlanActivity.kt:334 | adding a flushed day adds its plan at the end |
| Itinerary.Step | app/src/main/java/com/m7019e/nobi/PlanActivity.kt:329-343 | one turn of the `forEach`: a heading flushes an open day and opens a day with the unstarred label, another line joins the open day or else the intro builder; `StepOnHeading`, `StepOnBody` and `StepOnIntro` state each case |
| Itinerary.RunStep | app/src/main/java/com/m7019e/nobi/PlanActivity.kt:329-343 | one loop turn is one step of the specification |
| Itinerary.TrimAll | app/src/main/java/com/m7019e/nobi/PlanActivity.kt:330 | the list of trimmed lines is as long as the lines, each element trimmed |
| Itinerary.FromHeading | app/src/main/java/com/m7019e/nobi/PlanActivity.kt:331 | the lines from the first heading on start with a heading, if any remain |
| Itinerary.SplitAtHeading | app/src/main/java/com/m7019e/nobi/PlanActivity.kt:331-342 | the lines before and from the first heading make up the lines, and the first part holds no heading |
| Itinerary.Days | app/src/main/java/com/m7019e/nobi/PlanActivity.kt:310 | the labels of the plans, one per plan, in order |
| Itinerary.TrimmedLinesWellFormed | app/src/main/java/com/m7019e/nobi/PlanActivity.kt:321-330 | every trimmed non-blank line is trimmed and not blank |
| Itinerary.RunTrimAll | app/src/main/java/com/m7019e/nobi/PlanActivity.kt:330 | the loop trims each line itself, so trimming beforehand changes nothing |
| Itinerary.StepOnHeading | app/src/main/java/com/m7019e/nobi/PlanActivity.kt:331-337 | a heading flushes the open day if its body is not empty, clears the body, and opens a day with a non-empty label |
| Itinerary.StepOnBody | app/src/main/java/com/m7019e/nobi/PlanActivity.kt:338-339 | once a day is open, any other line joins its body |
| Itinerary.StepOnIntro | app/src/main/java/com/m7019e/nobi/PlanActivity.kt:340-341 | before the first heading, any other line joins the introduction followed by a line feed |
| Itinerary.IntroRun | app/src/main/java/com/m7019e/nobi/PlanActivity.kt:340-341 | every line before the first heading goes to the introduction, in order |
| Itinerary.DayRun | app/src/main/java/com/m7019e/nobi/PlanActivity.kt:331-339 | once a day is open, the lines up to the next heading join its body, the rest become the day blocks, and the introduction no longer changes |
| Itinerary.DayRunFromBody | app/src/main/java/com/m7019e/nobi/PlanActivity.kt:338-339 | the same, when the next line is a body line |
| Itinerary.DayRunFromHeading | app/src/main/java/com/m7019e/nobi/PlanActivity.kt:331-337 | the same, when the next line is a heading: the open day is flushed first |
| Itinerary.ItineraryByBlocks | app/src/main/java/com/m7019e/nobi/PlanActivity.kt:319-359 | the intro is the lines before the first heading joined by line feeds; the plans are those of the day blocks, or the single `"Day 1:"` plan of the whole trimmed text when there are none and the text is not blank |
| Itinerary.ScanByBlocks | app/src/main/java/com/m7019e/nobi/PlanActivity.kt:329-349 | the final loop state holds the day blocks as flushed days, and an introduction that trims to the lines before the first heading |
| Itinerary.FromHeadingTrimmed | app/src/main/java/com/m7019e/nobi/PlanActivity.kt:330 | the lines from the first heading on stay trimmed |
| Itinerary.BeforeHeadingTrimmed | app/src/main/java/com/m7019e/nobi/PlanActivity.kt:330 | the lines before the first heading stay trimmed and non-blank |
| Itinerary.DaysFromHeading | app/src/main/java/com/m7019e/nobi/PlanActivity.kt:331-347 | from the first heading on, the days flushed, the last included, are the day blocks |
| Itinerary.BlankItinerary | app/src/main/java/com/m7019e/nobi/PlanActivity.kt:350 | a blank text gives an empty introduction and no plan |
| Itinerary.NonBlankHasPlan | app/src/main/java/com/m7019e/nobi/PlanActivity.kt:350-353 | a text that is not blank always gives at least one plan |
| Itinerary.FallbackPlan | app/src/main/java/com/m7019e/nobi/PlanActivity.kt:350-353 | when no day is kept, the only plan is `"Day 1:"` with the details of the whole trimmed text |
| Itinerary.NoHeadingIsIntro | app/src/main/java/com/m7019e/nobi/PlanActivity.kt:340-349 | with no heading, the introduction is every line of the text |
| Itinerary.NoHeadingAllBefore | app/src/main/java/com/m7019e/nobi/PlanActivity.kt:340-341 | with no heading, every line comes before the first heading |
| Itinerary.ConsecutiveHeadings | app/src/main/java/com/m7019e/nobi/PlanActivity.kt:332-337 | a heading followed directly by another heading gives no day |
| Itinerary.Blocks | app/src/main/java/com/m7019e/nobi/PlanActivity.kt:331-347 | the reference reading of the days: each heading with the lines up to the next heading as its body, dropped when that body is empty; `ScanByBlocks` proves the loop flushes exactly these |
| Itinerary.BlocksWellFormed | app/src/main/java/com/m7019e/nobi/PlanActivity.kt:332-339 | every kept day has a non-empty label without `**` and a non-empty body holding no heading |
| Itinerary.WellFormedConcat | app/src/main/java/com/m7019e/nobi/PlanActivity.kt:332-339 | proof helper for `BlocksWellFormed`: joining two lists of well-formed days gives a list of well-formed days |
| Itinerary.BlocksLabels | app/src/main/java/com/m7019e/nobi/PlanActivity.kt:337 | the day labels are heading labels in heading order, each used at most once |
| Itinerary.HeadingLabelsSkip | app/src/main/java/com/m7019e/nobi/PlanActivity.kt:340-341 | lines before the first heading contribute no heading label |
| Itinerary.SubsequenceCons | app/src/main/java/com/m7019e/nobi/PlanActivity.kt:332 | proof helper for `BlocksLabels`: prepending to both sequences, or to the host only, keeps the subsequence relation |
| Itinerary.SubsequenceLength | app/src/main/java/com/m7019e/nobi/PlanActivity.kt:334 | proof helper for `PlanLabels`: a subsequence is no longer than the sequence it is taken from |
| Itinerary.DaysOfPlans | app/src/main/java/com/m7019e/nobi/PlanActivity.kt:334 | each plan's label is its day's label |
| Itinerary.PlanLabels | app/src/main/java/com/m7019e/nobi/PlanActivity.kt:331-347 | unless the fallback fired, the plan labels are heading labels in order, never contain `**`, and are no more than the headings |
| Destinations.ToDestination | app/src/main/java/com/m7019e/nobi/DestinationEntity.kt:15-23 | the title, which is the row's key, and the other four fields are copied unchanged |
| Destinations.ToEntity | app/src/main/java/com/m7019e/nobi/DestinationEntity.kt:25-33 | the title becomes the row's key, and the other four fields are copied unchanged |
| Destinations.ToEntityRoundTrip | app/src/main/java/com/m7019e/nobi/DestinationEntity.kt:15-33 | converting a destination to a row and back (`toEntity` then `toDestination`) gives the same destination |
| Destinations.ToDestinationRoundTrip | app/src/main/java/com/m7019e/nobi/DestinationEntity.kt:15-33 | converting a row to a destination and back (`toDestination` then `toEntity`) gives the same row |
| Destinations.ToEntityInjective | app/src/main/java/com/m7019e/nobi/DestinationEntity.kt:25-33 | distinct destinations give distinct rows, in both directions |
| Destinations.ToDestinationInjective | app/src/main/java/com/m7019e/nobi/DestinationEntity.kt:15-23 | distinct rows give distinct destinations, in both directions |
| Destinations.KeyIsTitle | app/src/main/java/com/m7019e/nobi/DestinationEntity.kt:8 | two destinations share a row key exactly when they share a title |
| Destinations.ToEntities | app/src/main/java/com/m7019e/nobi/DestinationWorker.kt:22 | `map { it.toEntity() }` converts each destination in place and in order |
| Destinations.ToDestinations | app/src/main/java/com/m7019e/nobi/DestinationsViewModel.kt:272 | `map { it.toDestination() }` converts each row in place and in order |
| Destinations.ListRoundTrip | app/src/main/java/com/m7019e/nobi/DestinationsViewModel.kt:295 | converting a list to rows and back (`toEntity` then `toDestination` on each element) gives the same list, element by element |
| Destinations.EntityListRoundTrip | app/src/main/java/com/m7019e/nobi/DestinationsViewModel.kt:272 | converting a list of rows to destinations and back gives the same rows, element by element |
| Destinations.ToEntitiesInjective | app/src/main/java/com/m7019e/nobi/DestinationWorker.kt:22 | distinct lists of destinations convert to distinct lists of rows, in both directions |
| Destinations.ToDestinationsInjective | app/src/main/java/com/m7019e/nobi/DestinationsViewModel.kt:272 | distinct lists of rows convert to distinct lists of destinations, in both directions |

## Left out

- `Log.d` calls in `parseItinerary` (PlanActivity.kt:320, 356-357): logging only, with no effect on the result.
- The `boldPattern` parameter of `parseDetails`: the model fixes it to the one pattern its only caller passes (PlanActivity.kt:326). `ParseDetails` therefore takes only the text.
- Regex and string semantics are modelled over Unicode scalar values, whereas Kotlin strings are UTF-16 code units. None of the characters the whitespace test, `\s`, `\d`, the line terminators or `*` look at is outside the Basic Multilingual Plane, so only `length`-based positions differ, and the model never exposes those.
- The regex character classes follow OpenJDK's `java.util.regex`. The app runs on Android, whose `java.util.regex` is backed by ICU; ICU documents wider classes, and the model does not capture them. A line such as "Day\u00A01: Arrival" or "Day ٣: x" is a heading under ICU but not in the model.
- Patterns.IsRegexSpace: `\s` is space and TAB to CR only. ICU's `\s` is Unicode White_Space, which adds U+0085, U+00A0, U+1680, U+2000 to U+200A, U+2028, U+2029, U+202F, U+205F and U+3000.
- Patterns.IsAsciiDigit: `\d` is `0` to `9` only. ICU's `\d` is every decimal digit (`\p{Nd}`), Arabic-Indic and Devanagari digits among them.
- Patterns.IsLineTerminator: `.` stops at LF, CR, U+0085, U+2028 and U+2029. ICU's `.` also stops at U+000B and U+000C.
- The day-word predicate takes it that, under `IGNORE_CASE` with Unicode case folding, only `d`/`D`, `a`/`A` and `y`/`Y` match the letters of `Day`.
- The screens, view models and services around the parser are not part of this model:
  - Compose UI;
  - `ItinerariesViewModel`;
  - Firestore and Firebase Auth;
  - the language-model request that produces the itinerary text.
- `DestinationRepo.kt`, `DestinationWorker.kt` and `ImageCacheWorker.kt` do network and file I/O, HTTP fetching, JSON decoding and WorkManager scheduling; that is not part of this model. Only the list conversions they apply are modelled (`ToEntities`, `ToDestinations`).
- Destinations.ListRoundTrip: only the conversions are composed. A round trip through the table is not modelled: `insertDestinations` replaces a row with the same `title` (DestinationDao.kt:11), so destinations with duplicate titles come back as one row, and `SELECT * FROM destinations` has no `ORDER BY` (DestinationDao.kt:14), so the order read back is not promised.
- `AppDatabase`, `DestinationDao` and Room's insert-conflict behaviour are a foreign library with a synchronized singleton. The model states only that rows are keyed by title (`KeyIsTitle`).
- The `cachePath` that `DestinationRepo.kt` passes when constructing a `Destination` is not a field of `Destination` (Destinations.kt:3-9). The model has the five declared fields only.
