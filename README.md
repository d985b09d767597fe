# Daily dashboard: the data-shaping core, in Dafny

`daily_dashboard.py` builds a daily HTML report. This project models the three
deterministic cores left once the fetching, the scraping of raw pages, the
language-model call and the templating are set aside:

* **E-address rates** (module `EAddress`, file `eaddress.dfy`).
  * The cumulative monthly activation counts of the state e-address service are
    differenced into daily rates; monthly deactivation counts are spread over
    the days to the next record (or 30).
  * `_find_rate` looks up the rate of the period a day falls in.
  * `vary` jitters a mean by at most 20% (a seed derived from the date) and
    floors it at zero.
  * The streak loop builds the last seven days for natural persons and for legal
    entities.
* **Cabinet agenda for R. Čudars** (modules `Cabinet` and `Essence`, files
  `cabinet.dfy` and `essence.dfy`).
  * Agenda items are recognised after each legal-act link on the sitting's
    agenda page, and each is placed under the nearest preceding section heading.
  * The items reported by Čudars (any case, with or without the háček) are kept.
  * Each kept item gets an *essence*: a language-model summary of the annotation
    when a client is available and the text is long, otherwise the three
    annotation sections found by regular expressions.
  * Each kept item also gets a *decision*: the numbered clauses of the draft
    protocol decision, read by a three-state line scanner, with bare item
    numbers merged into the clause that follows them.
* **Saeima commission agendas** (module `Parliament`, file `parliament.dfy`).
  * The scan computes the Monday to Friday of the coming week.
  * For each sitting on those days it collapses the whitespace of the agenda
    text and splits it into numbered points.
  * It reports the points that mention the regional development ministry
    ("keyword") or at least two digital-government topics ("content"), cut to
    300 characters for display.

Shared modules:
* `Seqs` holds the reversed search, the leftmost search and the list builders
  the three cores share.
* `Text` holds the whitespace, stripping, lower-casing and substring helpers.

Modelling conventions:
* **Dates.** Dates are day numbers counted as `date.toordinal()` counts them, so
  day 1 is a Monday. The current day (`today`) and the three-year chart cutoff
  (`chartFrom`) are parameters.
* **Rounding.** Python's `round` of a quotient is `RoundDiv`: exact rational
  rounding, half to even. `vary` is computed exactly: the factor `1 + offset`
  is `(4·M + 2·h) / (5·M)`, where M = 0xFFFFFFFF and h is the 32-bit md5
  prefix, supplied by a `seed` function of the day and the category.
* **What the scraping produces.** These are inputs:
  * the values the HTML regular expressions capture;
  * the fetched pages;
  * the model call, an oracle that may fail.

  These are modelled because they decide which items and lines exist:
  * the two field searches in the 1500-character window after a link;
  * the TA-line, item-number and footer line tests;
  * the point split.

Where the code's behaviour might surprise a reader, the model follows the code:
* **The first clause number is glued without a space.** In the protocol sample,
  `"1."` followed by a clause gives `"1.First clause. 2. Second clause."`
  (daily_dashboard.py:452-457). `Cabinet.DecisionSample` proves the same shape.
* **"content" wins over "keyword".** A point is tagged "content" whenever it has
  two topic hits, even when a keyword also matches (daily_dashboard.py:579). The
  comment at daily_dashboard.py:563 says the keyword takes priority.
* **One failed day listing loses the whole week.** If a day's listing cannot be
  fetched, the whole scan returns no result. The request at
  daily_dashboard.py:522 is only covered by the outer handler at
  daily_dashboard.py:590-592.
* **The hash fraction can reach 1.** `int(seed[:8], 16) / 0xFFFFFFFF` lies in
  [0, 1], both ends included (daily_dashboard.py:179), so the factor ranges over
  [0.8, 1.2].

## Model

| member | source | states |
|---|---|---|
| EAddress.RoundDivNearest | daily_dashboard.py:139-140 | Python's `round(n / d)` on exact rationals: the result times `d` is within half the divisor's magnitude of `n`, and an exact tie goes to the even neighbour |
| EAddress.RoundDivUnique | daily_dashboard.py:172-173 | an integer closer than half a divisor to the quotient is the rounded quotient, so `RoundDiv` is the one rounding of `n / d` |
| EAddress.RoundDiv | daily_dashboard.py:139-140 | Python's `round` of an exact quotient, half to even; characterised by `RoundDivNearest` and `RoundDivUnique` |
| EAddress.ActivationGap | daily_dashboard.py:136 | the gap between two records is their day distance, and a zero distance counts as one day, so the gap is never zero |
| EAddress.ActivationRate | daily_dashboard.py:136-141 | the rate of one adjacent pair, dated at the later record; bounded by `ActivationRateNearest` |
| EAddress.ActivationRates | daily_dashboard.py:130-142 | one rate per adjacent pair of records, n - 1 for n records and none for an empty list, the i-th dated at record i + 1 |
| EAddress.BuildDailyRates | daily_dashboard.py:130-142 | the differencing loop returns exactly the sequence of adjacent-pair rates |
| EAddress.ActivationRateNearest | daily_dashboard.py:136-140 | each activation rate times its gap is within half a gap of the counter's increase, for both counters |
| EAddress.ActivationRatesNonNegative | daily_dashboard.py:133-141 | a cumulative series that never falls, sampled at increasing dates, gives no negative rate |
| EAddress.DeactivationDays | daily_dashboard.py:166-169 | the divisor is the day distance to the next record, 30 for the last record, and 30 when the distance is zero |
| EAddress.DeactivationRate | daily_dashboard.py:165-174 | the rate of one record, dated at that record; bounded by `DeactivationRateNearest` |
| EAddress.DeactivationRates | daily_dashboard.py:163-174 | one rate per deactivation record, dated at that record |
| EAddress.BuildDeactivationRates | daily_dashboard.py:163-174 | the deactivation loop returns exactly one rate per record, each its counts divided by its divisor and rounded |
| EAddress.DeactivationRateNearest | daily_dashboard.py:166-173 | every record's rate times its divisor (the days to the next record, 30 for the last) is within half the divisor of its monthly count, for both counters |
| EAddress.Vary | daily_dashboard.py:177-181 | the result is never negative; it is 0 for a zero or negative mean; for a non-negative mean it lies between 0.8 and 1.2 times the mean, give or take the rounding half |
| EAddress.VaryBounds | daily_dashboard.py:179-181 | for every hash value in [0, 0xFFFFFFFF], the unfloored rounded value is at most 0 for a mean of at most 0, and otherwise lies within 20% of the mean, give or take half a unit |
| EAddress.FindRateLatest | daily_dashboard.py:183-192 | the rate found for a day is that of the last entry, in list order, dated on or before the day |
| EAddress.FindRateFallback | daily_dashboard.py:185-186 | with no entry dated on or before the day, the result is the last entry's rate, or (0, 0) for an empty list |
| EAddress.FindRateInPeriod | daily_dashboard.py:183-192 | for date-ordered rates, a day inside the period of entry j finds entry j's rate |
| EAddress.FindRate | daily_dashboard.py:183-192 | `_find_rate`: the reversed scan with its fallback; characterised by `FindRateLatest`, `FindRateFallback` and `FindRateInPeriod` |
| EAddress.StreakEntry | daily_dashboard.py:199-217 | one streak day has the given day, non-negative activated and deactivated counts and net = activated - deactivated |
| EAddress.StreakDays | daily_dashboard.py:198-217 | exactly 7 entries, the i-th being the entry for today - 7 + i |
| EAddress.StreakShape | daily_dashboard.py:198-217 | the streak runs from today - 7 to today - 1, one day per step, with non-negative counts and net = activated - deactivated throughout |
| EAddress.BuildStreaks | daily_dashboard.py:196-217 | the streak loop fills both lists with exactly the seven streak days of their subject |
| EAddress.EAddressData | daily_dashboard.py:154-226 | the chart keeps the activation records dated from the cutoff on; the streaks are built from the activation and deactivation rates; each "yesterday" is the last streak entry and is dated today - 1 |
| Essence.SectionChunk | daily_dashboard.py:277-281 | a section contributes exactly when it was found and is not all whitespace; the contribution is the first 500 characters (all of it if shorter, so exactly min(500, length)) of the collapsed and stripped capture, non-empty and not starting with whitespace |
| Essence.ChunksInOrder | daily_dashboard.py:273-281 | the chunks are those of the justification, the purpose and the solution, in that order, each only where present |
| Essence.Chunks | daily_dashboard.py:273-281 | the list the section loop builds: one chunk per section that yields one, in section order; characterised by `ChunksInOrder` and `SectionChunk` |
| Essence.RegexEssenceEmpty | daily_dashboard.py:282 | the fallback essence is empty exactly when none of the three sections yields a chunk |
| Essence.RegexEssenceBound | daily_dashboard.py:281-282 | the fallback essence is at most three 500-character chunks plus two three-character separators long |
| Essence.RegexEssence | daily_dashboard.py:271-298 | the fallback essence: the chunks joined by the three-character separator and stripped; characterised by `RegexEssenceEmpty` and `RegexEssenceBound` |
| Essence.RequestFor | daily_dashboard.py:243-248 | the model is shown the first min(2000, length) characters of the annotation and, only when a draft text exists, the first min(1500, length) characters of it |
| Essence.ExtractEssence | daily_dashboard.py:301-309 | without a model client or for a text of at most 200 characters the regex fallback is used; a failing model call also falls back; otherwise the model's answer is the essence |
| Essence.ModelSeesOnlyRequest | daily_dashboard.py:265 | two models that answer the request alike give the same essence, so the model sees nothing but the request |
| Cabinet.RunEnd | daily_dashboard.py:362-364 | a `[^<]*` run from a position stops at the first `<` or at the end, and holds no `<` |
| Cabinet.TextFieldAt | daily_dashboard.py:362 | the question pattern `Jautājums">([^<]+)` matches at a position: the marker occurs there and is followed by a character other than `<`; `FindTextField` and `FindTextFieldLeftmost` tie the search to it |
| Cabinet.SpanFieldAt | daily_dashboard.py:363-365 | the reporter pattern matches at a position: the marker, a `[^>]*` run ended by `>`, then a `[^<]*` run ended by `</span>`; `FindSpanField` and `FindSpanFieldLeftmost` tie the search to it |
| Cabinet.WindowAfter | daily_dashboard.py:361 | `agenda_html[ta.end():ta.end() + 1500]`: at most 1500 characters, the slice of the page from the link's end when it is in range and empty past the end (by the contract of `Text.Slice`) |
| Cabinet.TextFieldText | daily_dashboard.py:362 | the question field's capture is the non-empty run of the text from right after the marker up to the next `<` (or the end) |
| Cabinet.SpanFieldText | daily_dashboard.py:363-365 | the reporter field's capture is the run of the text from right after the first `>` following the marker up to the next `<`, which opens `</span>` |
| Cabinet.FindTextField | daily_dashboard.py:362 | the question field search fails exactly when the field occurs nowhere; a found capture is non-empty and tag-free |
| Cabinet.FindTextFieldLeftmost | daily_dashboard.py:362 | the search returns the capture of the leftmost occurrence |
| Cabinet.FindSpanField | daily_dashboard.py:363-365 | the reporter field search fails exactly when the field with a closing `</span>` occurs nowhere; a found capture is tag-free |
| Cabinet.FindSpanFieldLeftmost | daily_dashboard.py:363-365 | the search returns the capture of the leftmost occurrence |
| Cabinet.Recognise | daily_dashboard.py:361-373 | a link yields an item exactly when both fields are found in the 1500 characters after it; the item starts at the link and points at BASE_URL + the link path |
| Cabinet.RecognisedFields | daily_dashboard.py:370-372 | the item's TA number is the stripped link text; its title is the stripped question capture and its reporter the stripped reporter capture of the window; both are tag-free and have no whitespace at either end |
| Cabinet.CollectItems | daily_dashboard.py:356-373 | the link loop returns the items of the recognised links, in link order |
| Cabinet.Recognised | daily_dashboard.py:356-373 | the items of the links that are recognised, in link order; computed by `CollectItems` |
| Cabinet.RecognisedLinksIntoPortal | daily_dashboard.py:369 | every recognised item links into the legal acts portal |
| Cabinet.SectionForLatest | daily_dashboard.py:376-381 | an item's section is the name of the last section, in list order, whose offset is strictly before the item's |
| Cabinet.SectionForUnknown | daily_dashboard.py:377-381 | with no section strictly before the item (an equal offset does not count) the section is "Unknown" |
| Cabinet.SectionForSample | daily_dashboard.py:376-381 | on sections "A", "B" and "C" at offsets 0, 100 and 250, positions 50, 150 and 300 fall under "A", "B" and "C", and position 0 (equal to the first offset) under "Unknown" |
| Cabinet.SectionFor | daily_dashboard.py:376-381 | the section an item falls under; characterised by `SectionForLatest` and `SectionForUnknown` |
| Cabinet.WithSections | daily_dashboard.py:376-381 | section assignment keeps the number of items |
| Cabinet.AssignSections | daily_dashboard.py:376-381 | the in-place loop sets every item's section to its nearest preceding section and changes nothing else |
| Cabinet.CudarsSamples | daily_dashboard.py:386 | "R. Čudars", "r. cudars" and "R.CUDARS" mention Čudars; "R. Jansons" does not |
| Cabinet.CudarsAt | daily_dashboard.py:386 | `(?i)[čc]udars` matches at one position: six characters from there are c or č, u, d, a, r, s in either case, long s counting as s; sampled by `CudarsSamples` |
| Cabinet.CudarsItemsExact | daily_dashboard.py:384-387 | the kept items are exactly the items whose reporter mentions Čudars or Cudars in any case |
| Cabinet.CudarsItemsAppend | daily_dashboard.py:384-387 | the filter of a concatenation is the concatenation of the filters, so it keeps the list order and every repetition |
| Cabinet.CudarsItemsOne | daily_dashboard.py:384-387 | one item is kept exactly when its reporter mentions Čudars |
| Cabinet.MentionsCudars | daily_dashboard.py:386 | the case-insensitive search for `[čc]udars`, with long s matching s; sampled by `CudarsSamples` |
| Cabinet.CudarsItems | daily_dashboard.py:384-387 | the list filter; characterised by `CudarsItemsExact`, `CudarsItemsAppend` and `CudarsItemsOne` |
| Cabinet.Captured | daily_dashboard.py:433-448 | the lines the capture scanner keeps from a start state; pinned by `CaptureIdleUntilTaLine` and `CaptureNeedsTaLine` (capture off), `CaptureFromFirstMarker` and `CaptureWaitsForMarker` (waiting for a number), `CaptureStopsAtFooter` (capturing) and `CaptureRestartsAtTaLine` |
| Cabinet.IsTaLine | daily_dashboard.py:437 | a line starting with digits, `-TA-` and a digit |
| Cabinet.IsMarker | daily_dashboard.py:440-443 | a line that is digits and a dot, optionally before a final newline |
| Cabinet.IsMarkerWs | daily_dashboard.py:454 | digits, a dot, then only whitespace |
| Cabinet.IsFooter | daily_dashboard.py:446 | a line holding one of the three footer markers |
| Cabinet.CaptureRestartsAtTaLine | daily_dashboard.py:437-439 | a TA line restarts the capture: with no footer before it, the capture is that of the lines before it followed by that of the lines after it started afresh in the wait for an item number |
| Cabinet.CaptureDecisionLines | daily_dashboard.py:433-448 | the capture loop returns exactly the lines the capture scanner keeps, starting with capture off |
| Cabinet.CapturedLinesClean | daily_dashboard.py:446-448 | every captured line is one of the protocol lines, and none is a footer line or a TA line |
| Cabinet.CaptureNeedsTaLine | daily_dashboard.py:437-439 | without a TA line nothing is captured |
| Cabinet.CaptureStartsAtMarker | daily_dashboard.py:440-444 | unless capture is already on, a non-empty capture begins with a bare item number |
| Cabinet.CaptureFromFirstMarker | daily_dashboard.py:440-444 | while waiting for an item number, every line before the first bare number is skipped, and the capture is that of the lines from that number on with capture on |
| Cabinet.CaptureWaitsForMarker | daily_dashboard.py:440-442 | while waiting, a text with neither a bare number nor a TA line yields nothing |
| Cabinet.MarkerIsNotTaLine | daily_dashboard.py:437-443 | a bare item number is never a TA line |
| Cabinet.CaptureStopsAtFooter | daily_dashboard.py:445-448 | once capturing (and with no further TA line), the capture is the prefix of the lines before the first footer line: no line of it is a footer, and the line after it, if any, is one |
| Cabinet.CaptureIdleUntilTaLine | daily_dashboard.py:435-447 | while capture is off nothing is looked at, not even a footer line: the capture from the start is that of the lines after the first TA line, waiting for an item number |
| Cabinet.SampleCaptured | daily_dashboard.py:433-448 | the protocol sample (TA line, title, "1.", clause, "2.", clause, footer) captures the two numbers and their clauses |
| Cabinet.MergeMarkers | daily_dashboard.py:450-457 | the merge loop returns exactly the merged clause list |
| Cabinet.MergedEmpty | daily_dashboard.py:450-457 | the merge is empty exactly when there are no decision lines |
| Cabinet.MergeKeepsText | daily_dashboard.py:450-457 | merging loses and reorders no text: concatenated, the merged list equals the decision lines with a space after each later bare item number |
| Cabinet.MergedLength | daily_dashboard.py:450-457 | merging never lengthens the list |
| Cabinet.Merged | daily_dashboard.py:450-457 | the merged clause list; pinned branch by branch by `MergeKeepsLine`, `MergeOpensAtMarker` and `MergeGluesToNumber`, which together fix the result for every input, and further by `MergeGluesFirst`, `MergeGluesLater`, `MergedEmpty`, `MergeKeepsText` and `MergedLength` |
| Cabinet.MergeGluesFirst | daily_dashboard.py:450-457 | a first line that is a bare number is glued to the line after it, without a space |
| Cabinet.MergeGluesLater | daily_dashboard.py:450-457 | a later bare number gets a space and is glued to the line after it, the entries before it unchanged |
| Cabinet.MergeKeepsLine | daily_dashboard.py:456-457 | the first line, or a line that is no bare number after an entry that is not one either, is appended as an entry of its own, the entries before it unchanged |
| Cabinet.MergeOpensAtMarker | daily_dashboard.py:452-453 | a later bare number is appended as an entry of its own, with a space after it |
| Cabinet.MergeGluesToNumber | daily_dashboard.py:454-455 | a line that is no bare number, after an entry that is one (with trailing whitespace or not), is glued to that entry without a space, the entries before it unchanged |
| Cabinet.MergeStep | daily_dashboard.py:452-457 | one pass of the merge loop body; its three branches are stated by `MergeOpensAtMarker`, `MergeGluesToNumber` and `MergeKeepsLine` |
| Cabinet.MarkerIsMarkerWs | daily_dashboard.py:452-455 | a bare number, with or without the added space, is an entry the next line is glued to |
| Cabinet.SampleMerged | daily_dashboard.py:450-457 | "1.", "A", "2.", "B" merge to "1.A", "2. B" |
| Cabinet.LinesStripped | daily_dashboard.py:431 | every protocol line is non-empty, has no whitespace at either end and holds no line break |
| Cabinet.Lines | daily_dashboard.py:431 | the non-blank stripped lines of the protocol text; characterised by `LinesStripped` |
| Cabinet.Decision | daily_dashboard.py:458 | the decision text is at most 600 characters long |
| Cabinet.DecisionSample | daily_dashboard.py:433-458 | the protocol sample's decision is "1.A 2. B", the first number glued to its clause |
| Cabinet.Enrich | daily_dashboard.py:390-458 | enrichment changes only the essence and the decision; a failed legal act page or annotation fetch leaves both empty; a fetched annotation gives the extracted essence, with the draft text when it was fetched and none otherwise; a fetched protocol gives its decision; no annotation means no essence and no protocol no decision; the decision is at most 600 characters |
| Cabinet.LegalActFailureIgnored | daily_dashboard.py:401-411 | a legal act draft that cannot be fetched counts as no draft at all |
| Cabinet.DecisionIndependentOfEssence | daily_dashboard.py:413-458 | unless the annotation fetch fails, the decision does not depend on the annotation, the draft, the section captures or the model |
| Cabinet.EnrichOne | daily_dashboard.py:391-458 | the loop body computes exactly the enrichment of one item, running the capture and merge loops |
| Cabinet.EnrichItems | daily_dashboard.py:390-462 | the in-place enrichment leaves every kept item enriched with the documents of its own legal act link |
| Cabinet.EnrichAll | daily_dashboard.py:390-462 | enrichment keeps the number of items |
| Cabinet.EnrichAllKeeps | daily_dashboard.py:390-462 | enrichment keeps every item's position, link, TA number, title, reporter and section, and bounds its decision by 600 characters |
| Cabinet.SectionNames | daily_dashboard.py:470 | `all_sections` lists the section names, one per section, in order |
| Cabinet.SectionedItems | daily_dashboard.py:356-381 | recognition followed by the in-place section pass gives the items of the page with their sections |
| Cabinet.AgendaItems | daily_dashboard.py:356-381 | the recognised items with their sections; characterised by `AgendaItemsFacts` and computed by `SectionedItems` |
| Cabinet.EnrichedItems | daily_dashboard.py:390-462 | copying the kept items into a buffer and enriching it in place gives the enriched items |
| Cabinet.SelectItems | daily_dashboard.py:356-462 | the reported items are the Čudars items of the sectioned agenda, enriched |
| Cabinet.AgendaItemsFacts | daily_dashboard.py:356-381 | every agenda item links into the portal and carries the section it falls under |
| Cabinet.CudarsItemsFacts | daily_dashboard.py:356-387 | every kept item mentions Čudars, links into the portal and carries its section |
| Cabinet.CabinetItemsFacts | daily_dashboard.py:356-462 | every reported item mentions Čudars, links into the portal, carries its section and has a decision of at most 600 characters |
| Cabinet.CabinetAgenda | daily_dashboard.py:312-474 | no meeting link, or an unreachable meetings list or agenda page, gives no result; otherwise the result holds the meeting date (or "Unknown date"), the meeting URL, the enriched Čudars items and the section names |
| Parliament.Weekday | daily_dashboard.py:511 | a weekday number is in 0..6, Monday being 0 |
| Parliament.DaysUntilMonday | daily_dashboard.py:511-513 | the number of days to the next Monday is always in 1..7 |
| Parliament.NextMonday | daily_dashboard.py:514 | today plus the days to Monday; characterised by `NextMondayIsFirstMondayAfter` |
| Parliament.NextMondayIsFirstMondayAfter | daily_dashboard.py:511-514 | the next Monday is strictly after today, is a Monday, and is the first Monday after today |
| Parliament.WeekDates | daily_dashboard.py:515 | the week has five dates |
| Parliament.WeekDatesMondayToFriday | daily_dashboard.py:515 | the five dates are consecutive, start on the next Monday (after today) and fall on Monday to Friday |
| Parliament.TimeText | daily_dashboard.py:531 | the time text holds no dot, is no longer than the raw time, has no whitespace at either end, keeps every other non-space character of the raw time in order, and is empty exactly when the raw time without dots is all whitespace |
| Parliament.SittingLink | daily_dashboard.py:533 | the sitting page URL, under the Saeima site |
| Parliament.AgendaText | daily_dashboard.py:551 | the agenda text holds no whitespace but single spaces, never two in a row, has none at either end, keeps every non-space character of the body in order, and is empty exactly when the body was all whitespace |
| Parliament.AgendaTextSolid | daily_dashboard.py:551 | a non-empty word without whitespace comes through unchanged |
| Parliament.AgendaTextRun | daily_dashboard.py:551 | a word, a whitespace run and more text give the word, one space and the agenda text of the rest |
| Parliament.StripCollapsed | daily_dashboard.py:551 | stripping a collapsed text keeps it collapsed |
| Parliament.SplitFromSpells | daily_dashboard.py:557 | the split pieces, concatenated, give back the text |
| Parliament.SplitFromCuts | daily_dashboard.py:557 | the pieces cut the text exactly at its split points: piece k is the text between bound k and bound k + 1, every bound after the first is a split point, and no split point lies strictly inside a piece |
| Parliament.SplitCuts | daily_dashboard.py:557 | the whole-text split, from offset 0, cuts the text exactly at its split points |
| Parliament.BreakAt | daily_dashboard.py:557 | the split point: a word boundary before digits, a dot and a whitespace character |
| Parliament.IsWordChar | daily_dashboard.py:557 | the `\w` class that decides the `\b` before a split point: ASCII letters, digits and `_`, and the Latin-1 and Latin Extended-A letters, superscripts and fractions Python counts as word characters |
| Parliament.SplitFrom | daily_dashboard.py:557 | `re.split` at the split points; characterised by `SplitFromSpells` and `SplitFromCuts` |
| Parliament.PointsStripped | daily_dashboard.py:558 | every point is non-empty and has no whitespace at either end |
| Parliament.Points | daily_dashboard.py:557-558 | the stripped non-blank pieces of the split; characterised by `PointsStripped` |
| Parliament.SittingPoints | daily_dashboard.py:546-558 | the points of a sitting page: none for a failed page, a missing text body or a blank text |
| Parliament.CountTopicsPositive | daily_dashboard.py:567 | the topic count is positive exactly when some topic occurs in the point |
| Parliament.CountTopicsTwo | daily_dashboard.py:567-568 | the topic count reaches two exactly when two different entries of the topic list occur in the point |
| Parliament.LoweredTopics | daily_dashboard.py:567 | one lower-cased topic per digital topic |
| Parliament.MentionsAny | daily_dashboard.py:563-564 | `any(kw in point_lower for kw in ...)`: some keyword occurs in the text |
| Parliament.CountTopics | daily_dashboard.py:567 | the topic hit count, at most the number of topics; characterised by `CountTopicsPositive` and `CountTopicsTwo` |
| Parliament.Classify | daily_dashboard.py:561-579 | a point is reported exactly when its lower-case form contains a ministry keyword or two topics; it is "content" exactly when it has two topic hits, and "keyword" exactly when a keyword matches with fewer than two hits |
| Parliament.Display | daily_dashboard.py:572 | a point of at most 300 characters is shown whole; a longer one shows its first 300 characters followed by "..." |
| Parliament.EntryFor | daily_dashboard.py:570-580 | a point makes an entry exactly when it is classified as relevant; the entry holds the day, the dot-free time, the commission, the display text, the sitting link and the classification, "content" exactly when two topics occur |
| Parliament.ScanPoints | daily_dashboard.py:560-580 | the point loop appends exactly the entries of the relevant points, in order |
| Parliament.PointEntries | daily_dashboard.py:560-580 | the entries of a sitting's points in point order, one per relevant point; computed by `ScanPoints`, with `EntryFor` deciding each point and `PointEntriesWellFormed` its entries |
| Parliament.ScanSitting | daily_dashboard.py:531-582 | a sitting yields the entries of the points of its agenda text; nothing if its page fails, lacks a text body or is blank |
| Parliament.SittingEntries | daily_dashboard.py:531-582 | the entries of the points of one sitting page; computed by `ScanSitting` |
| Parliament.ScanDay | daily_dashboard.py:530-582 | the sitting loop appends the entries of each sitting in listing order |
| Parliament.SittingsEntries | daily_dashboard.py:530-582 | the entries of a day's sittings, in listing order; computed by `ScanDay`, with `SittingsEntriesWellFormed` stating each is dated on the day |
| Parliament.DayEntries | daily_dashboard.py:519-582 | the entries of one day's listing, none when the listing failed; computed by `ScanDays` through its per-day step |
| Parliament.ScanDays | daily_dashboard.py:519-582 | the day loop fails exactly when some day's listing cannot be fetched; otherwise it returns the entries of all days in order |
| Parliament.DaysEntries | daily_dashboard.py:519-582 | the entries of all scanned days in day order; computed by `ScanDays`, with `DaysEntriesWellFormed` stating each is dated on a scanned day |
| Parliament.ParliamentAgenda | daily_dashboard.py:508-592 | there is no result exactly when a listing of the coming week cannot be fetched; otherwise the week starts on its Monday, ends on its Friday and lists the week's entries |
| Parliament.PointEntriesWellFormed | daily_dashboard.py:572-580 | every entry of a sitting has a display text of at most 303 characters, a link into the Saeima site, a dot-free time, the sitting's day and its commission |
| Parliament.SittingsEntriesWellFormed | daily_dashboard.py:530-582 | every entry of a day is well formed and dated on that day |
| Parliament.DaysEntriesWellFormed | daily_dashboard.py:519-582 | every entry of the week is well formed and dated on one of the scanned days |
| Text.CollapseSpaces | daily_dashboard.py:551 | whitespace collapse leaves no run of whitespace other than a single space and keeps every other character in order |
| Text.CollapseSolid | daily_dashboard.py:551 | text without whitespace is copied through unchanged |
| Text.CollapseRun | daily_dashboard.py:551 | a maximal whitespace run becomes one space |
| Text.CollapseWordRun | daily_dashboard.py:551 | a word followed by a maximal whitespace run becomes the word and one space |
| Text.CollapseIdempotent | daily_dashboard.py:551 | collapsing twice is collapsing once |
| Text.Strip | daily_dashboard.py:531 | the stripped text is a slice with only whitespace cut off at either end, empty exactly when the text is all whitespace |
| Text.StripNonSpace | daily_dashboard.py:531 | stripping keeps every non-space character, in order |
| Text.StripFront | daily_dashboard.py:551 | text that begins with a non-space keeps that front when stripped, only the tail being cut |
| Text.RemoveChar | daily_dashboard.py:531 | `replace(c, "")` keeps, in order, exactly the characters other than c |
| Text.SplitOn | daily_dashboard.py:431 | splitting at line breaks gives pieces without line breaks that rejoin to the text |
| Text.LowerAppend | daily_dashboard.py:561 | lower-casing works character by character: the lower case of a concatenation is the concatenation of the lower cases |
| Text.IsSpace | daily_dashboard.py:279 | the characters `str.isspace` and `\s` accept: space, U+09..U+0D, U+1C..U+1F, U+85, U+A0, U+1680, U+2000..U+200A, U+2028, U+2029, U+202F, U+205F and U+3000 |
| Text.Take | daily_dashboard.py:281 | Python `s[:n]`: the first n characters, all of them if shorter |
| Text.Slice | daily_dashboard.py:361 | Python `s[a:b]` for non-negative bounds: never longer than the text, the exact slice when the bounds are in range, empty when they cross or start past the end |
| Text.Contains | daily_dashboard.py:446 | Python `sub in s`: an occurrence at some position; `NotContains` shows a text lacking one of its characters does not contain it |
| Text.NonBlank | daily_dashboard.py:431 | the `if l.strip()` filter with its `l.strip()` value: no value exactly when the text is all whitespace, otherwise the stripped text, non-empty and trimmed |
| Text.Join | daily_dashboard.py:282 | Python `sep.join(parts)`: the parts with the separator between each two; characterised by `JoinCons` and `JoinStartsWithFirst` |
| Text.Lower | daily_dashboard.py:561 | `str.lower`, character by character; characterised by `LowerAppend` |

## Left out

- **Services and the clock.**
  * HTTP requests, the RSS news and quote fetchers, `main` and the file write
    are not modelled.
  * Each fetch becomes an input value: a meetings index, an agenda page, item
    documents, a day listing or a sitting page, where failure is a constructor
    of its own.
  * `datetime.now()` becomes the `today` and `chartFrom` parameters.
- **What the catch-all handlers do.**
  * The handlers become `None` results or constructors for failed fetches.
  * The e-address fetch failure (daily_dashboard.py:227-229) is not modelled:
    `EAddress.EAddressData` starts from records already fetched.
- **The model call.** The call in `_ai_extract_essence` (daily_dashboard.py:239-268)
  is an oracle `AiRequest -> Option<string>`. Only what is sent to it is
  modelled; the prompt wording is not.
- **Hashing.** md5 is a foreign computation; its 32-bit prefix is the output of
  a `seed` parameter.
- **Floating point.** `vary` and the rates are computed on exact rationals, so
  float rounding error is not captured. The chart bar heights belong to the
  report page and are not part of this model.
- **Labels.** The weekday and date labels of `strftime` (`"%a"` on streak days,
  `"%A, %d.%m."` on parliament entries, `"%d.%m.%Y"` for the week ends) are
  replaced by the day numbers they label.
- **Regular-expression scraping.** Python's regular-expression engine is not
  modelled. These are inputs, not code:
  * the meeting link and its date (daily_dashboard.py:322-339);
  * the section headings with their tags removed (daily_dashboard.py:346-352);
  * the legal-act link matches (daily_dashboard.py:357-359);
  * the annotation, draft and protocol link searches and the tag, script and
    entity cleanup (daily_dashboard.py:398-430);
  * the three annotation section captures (daily_dashboard.py:274-277);
  * the `draw_PE` sittings and the `textBody` block with its cleanup
    (daily_dashboard.py:525-550).
- Essence.RegexEssence: the three legal-citation rewrites
  (daily_dashboard.py:284-297) are not applied. The modelled fallback is the
  joined, stripped chunks before those rewrites.
- **Character classes.**
  * `\d` is ASCII digits only, while Python's `\d` also matches other Unicode
    digits.
  * The `\b` of the point split uses the word characters (letters, digits and
    numerals such as `²` and `½`) of the Basic Latin, Latin-1 and Latin
    Extended-A blocks only.
- Text.Lower: follows `str.lower` only for the Basic Latin, Latin-1 and Latin
  Extended-A blocks (including `İ` to `i̇`) and leaves other characters
  unchanged.
- **Aliasing.** The Čudars items are the same dictionaries as the agenda items,
  so the source's enrichment also changes entries of `items`. `items` is never
  returned, so this is unobservable and the model enriches copies.
- Cabinet.DecisionSample: uses short clause texts ("A", "B") in place of full
  sentences; the shape it proves is the same.
- **The rest of the file.** The HTML dashboard (`create_html_dashboard`), its
  styles and the printing of progress messages are not modelled.
