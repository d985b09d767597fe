/** The parliament (Saeima) commission agenda scan: the Monday to Friday of the
    coming week, the agenda points of every commission sitting on those days,
    and the points that concern the regional development ministry or digital
    government topics. */
module Parliament {
  import opened Seqs
  import opened Text

  const SaeimaBase := "https://titania.saeima.lv"
  /** Longest `point[:300]` shown. */
  const DisplayLimit := 300
  const Ellipsis := "..."

  // ------------------------------------------------------------------ the week

  /** Day numbers count as `date.toordinal()` does: day 1 is a Monday. */
  function Weekday(day: int): (w: int)
    ensures 0 <= w < 7
  {
    (day - 1) % 7
  }

  /** `(7 - today.weekday()) % 7`, with 0 turned into 7. */
  function DaysUntilMonday(today: int): (n: int)
    ensures 1 <= n <= 7
  {
    var d := (7 - Weekday(today)) % 7;
    if d == 0 then 7 else d
  }

  function NextMonday(today: int): int
  {
    today + DaysUntilMonday(today)
  }

  /** The next Monday is strictly after today, is a Monday, and no day in
      between is one: it is the first Monday after today. */
  lemma NextMondayIsFirstMondayAfter(today: int)
    ensures NextMonday(today) > today
    ensures Weekday(NextMonday(today)) == 0
    ensures forall d :: today < d < NextMonday(today) ==> Weekday(d) != 0
  {
    var w := Weekday(today);
    var n := DaysUntilMonday(today);
    assert n == 7 - w;
    forall d | today < d < NextMonday(today) ensures Weekday(d) != 0 {
      assert Weekday(d) == w + (d - today);
    }
  }

  /** Counting on from a multiple of 7. */
  lemma ModShift(x: int, i: int)
    requires x % 7 == 0 && 0 <= i < 7
    ensures (x + i) % 7 == i
  {
    assert x == 7 * (x / 7);
  }

  /** `[next_monday + timedelta(days=i) for i in range(5)]`. */
  function WeekDates(today: int): (days: seq<int>)
    ensures |days| == 5
  {
    seq(5, i requires 0 <= i < 5 => NextMonday(today) + i)
  }

  /** The week is Monday to Friday of the coming week, day after day. */
  lemma WeekDatesMondayToFriday(today: int)
    ensures forall i :: 0 <= i < 5 ==> WeekDates(today)[i] == NextMonday(today) + i
    ensures forall i :: 0 <= i < 5 ==> Weekday(WeekDates(today)[i]) == i
    ensures forall i :: 0 < i < 5 ==> WeekDates(today)[i] == WeekDates(today)[i - 1] + 1
    ensures WeekDates(today)[0] > today && WeekDates(today)[4] == WeekDates(today)[0] + 4
  {
    NextMondayIsFirstMondayAfter(today);
    var m := NextMonday(today);
    forall i | 0 <= i < 5 ensures Weekday(WeekDates(today)[i]) == i {
      assert WeekDates(today)[i] - 1 == (m - 1) + i;
      ModShift(m - 1, i);
    }
  }

  // ---------------------------------------------------------------- a sitting

  /** `time_raw.replace(".", "").strip()`. */
  function TimeText(timeRaw: string): (t: string)
    ensures '.' !in t && |t| <= |timeRaw|
    ensures t == [] <==> AllSpace(Filter(Except('.'), timeRaw))
    ensures t != [] ==> Trimmed(t)
    ensures NonSpace(t) == NonSpace(Filter(Except('.'), timeRaw))
  {
    var r := RemoveChar(timeRaw, '.');
    assert '.' !in r;
    StripNoChar(r, '.');
    StripNonSpace(r);
    Strip(r)
  }

  function SittingLink(unid: string): string
  {
    SaeimaBase + "/LIVS/SaeimasNotikumi.nsf/0/" + unid + "?OpenDocument"
  }

  /** The text of a sitting's agenda: the `textBody` content with scripts, tags
      and entities already turned into spaces, its whitespace runs collapsed,
      stripped. */
  function AgendaText(body: string): (t: string)
    ensures Collapsed(t)
    ensures t == [] <==> AllSpace(body)
    ensures t != [] ==> Trimmed(t)
    ensures NonSpace(t) == NonSpace(body)
  {
    var c := CollapseSpaces(body);
    AllSpaceNonSpace(body);
    AllSpaceNonSpace(c);
    StripCollapsed(c);
    StripNonSpace(c);
    Strip(c)
  }

  /** A word without whitespace comes through unchanged. */
  lemma AgendaTextSolid(w: string)
    requires w != [] && Solid(w)
    ensures AgendaText(w) == w
  {
    CollapseSolid(w, []);
    assert w + [] == w;
    StripTrimmed(w);
  }

  /** A word followed by a whitespace run and more text: the word is kept, the
      run becomes one space, and the rest is the agenda text of what follows. */
  lemma AgendaTextRun(w: string, sp: string, t: string)
    requires w != [] && Solid(w)
    requires sp != [] && AllSpace(sp)
    requires t != [] && !IsSpace(t[0])
    ensures AgendaText(w + sp + t) == w + " " + AgendaText(t)
  {
    CollapseWordRun(w, sp, t);
    var c := CollapseSpaces(t);
    assert (w + " ")[0] == w[0];
    StripFront(w + " ", c);
  }

  /** Stripping a collapsed text leaves it collapsed. */
  lemma StripCollapsed(s: string)
    requires Collapsed(s)
    ensures Collapsed(Strip(s))
  {
    var a, b :| 0 <= a <= b <= |s| && Strip(s) == s[a..b] && AllSpace(s[..a]) && AllSpace(s[b..]);
    CollapsedSlice(s, a, b);
  }

  // ------------------------------------------------------------ agenda points

  /** A Unicode word character, approximated by digits, `_`, and the letters and
      numerals of the Basic Latin, Latin-1 and Latin Extended-A blocks. */
  predicate IsWordChar(c: char)
  {
    IsDigit(c) || c == '_' || ('a' <= c <= 'z') || ('A' <= c <= 'Z') ||
    c == 'ª' || c == 'µ' || c == 'º' || ('À' <= c <= 'ÿ' && c != '×' && c != '÷') ||
    c == '²' || c == '³' || c == '¹' || c == '¼' || c == '½' || c == '¾' ||
    ('Ā' <= c <= 'ſ')
  }

  /** The zero-width split point `(?=\b\d+\.\s)` matches at `i`: a word boundary
      before a run of digits, a dot and a whitespace character. */
  predicate BreakAt(s: string, i: nat)
  {
    && i < |s| && IsDigit(s[i]) && (i == 0 || !IsWordChar(s[i - 1]))
    && var k := DigitEnd(s, i);
       k + 1 < |s| && s[k] == '.' && IsSpace(s[k + 1])
  }

  /** `re.split` at every split point: the pieces of `s[start..]`, where the
      current piece began at `start` and the points before `i` are passed. */
  function SplitFrom(s: string, start: nat, i: nat): (pieces: seq<string>)
    requires start <= i <= |s|
    ensures |pieces| >= 1
    decreases |s| - i
  {
    if i == |s| then [s[start..]]
    else if BreakAt(s, i) then [s[start..i]] + SplitFrom(s, i, i + 1)
    else SplitFrom(s, start, i + 1)
  }

  /** Splitting loses and reorders nothing: the pieces spell out the text. */
  lemma {:induction false} SplitFromSpells(s: string, start: nat, i: nat)
    requires start <= i <= |s|
    ensures Join(SplitFrom(s, start, i), "") == s[start..]
    decreases |s| - i
  {
    if i < |s| {
      if BreakAt(s, i) {
        var rest := SplitFrom(s, i, i + 1);
        calc {
          Join(SplitFrom(s, start, i), "");
          Join([s[start..i]] + rest, "");
          { JoinCons(s[start..i], rest, ""); }
          s[start..i] + "" + Join(rest, "");
          { SplitFromSpells(s, i, i + 1); }
          s[start..i] + "" + s[i..];
          { assert s[start..] == s[start..i] + s[i..]; }
          s[start..];
        }
      } else {
        SplitFromSpells(s, start, i + 1);
      }
    }
  }

  /** Where the pieces of `SplitFrom(s, start, i)` begin, followed by the end
      of the text. */
  function SplitBounds(s: string, start: nat, i: nat): (bounds: seq<nat>)
    requires start <= i <= |s|
    decreases |s| - i
  {
    if i == |s| then [start, |s|]
    else if BreakAt(s, i) then [start] + SplitBounds(s, i, i + 1)
    else SplitBounds(s, start, i + 1)
  }

  /** No split point lies strictly between `lo` and `hi`. */
  predicate NoBreakBetween(s: string, lo: nat, hi: nat)
  {
    forall q :: lo < q < hi ==> !BreakAt(s, q)
  }

  /** Piece `k` is the text between bounds `k` and `k + 1`, it begins at a split
      point unless it is the first, and holds no split point inside. */
  predicate PieceAt(s: string, pieces: seq<string>, bounds: seq<nat>, k: nat)
  {
    && k < |pieces| && k + 1 < |bounds|
    && bounds[k] <= bounds[k + 1] <= |s|
    && pieces[k] == s[bounds[k]..bounds[k + 1]]
    && (k > 0 ==> BreakAt(s, bounds[k]))
    && NoBreakBetween(s, bounds[k], bounds[k + 1])
  }

  /** The pieces cut `s[start..]` exactly at its split points. */
  predicate CutAt(s: string, pieces: seq<string>, bounds: seq<nat>, start: nat)
  {
    && |bounds| == |pieces| + 1 && bounds[0] == start && bounds[|pieces|] == |s|
    && forall k :: 0 <= k < |pieces| ==> PieceAt(s, pieces, bounds, k)
  }

  /** The split cuts the text at every split point and nowhere else: each piece
      after the first begins at a split point, and no piece holds one inside. */
  lemma {:induction false} SplitFromCuts(s: string, start: nat, i: nat)
    requires start <= i <= |s|
    requires NoBreakBetween(s, start, i)
    ensures CutAt(s, SplitFrom(s, start, i), SplitBounds(s, start, i), start)
    decreases |s| - i
  {
    var pieces := SplitFrom(s, start, i);
    var bounds := SplitBounds(s, start, i);
    if i == |s| {
      assert PieceAt(s, pieces, bounds, 0);
    } else if BreakAt(s, i) {
      var rest := SplitFrom(s, i, i + 1);
      var restBounds := SplitBounds(s, i, i + 1);
      SplitFromCuts(s, i, i + 1);
      assert pieces == [s[start..i]] + rest && bounds == [start] + restBounds;
      forall k | 0 <= k < |pieces| ensures PieceAt(s, pieces, bounds, k) {
        if k == 0 {
          assert bounds[1] == restBounds[0] == i;
        } else {
          assert PieceAt(s, rest, restBounds, k - 1);
          assert pieces[k] == rest[k - 1] && bounds[k] == restBounds[k - 1] && bounds[k + 1] == restBounds[k];
        }
      }
    } else {
      SplitFromCuts(s, start, i + 1);
    }
  }

  /** The top-level split of a text. */
  lemma SplitCuts(text: string)
    ensures CutAt(text, SplitFrom(text, 0, 0), SplitBounds(text, 0, 0), 0)
  {
    SplitFromCuts(text, 0, 0);
  }

  /** `[p.strip() for p in re.split(r'(?=\b\d+\.\s)', text) if p.strip()]`. */
  function Points(text: string): seq<string>
  {
    FilterMap(NonBlank, SplitFrom(text, 0, 0))
  }

  /** The points are the pieces without their surrounding whitespace, blank
      pieces dropped. */
  lemma {:induction false} PointsStripped(text: string)
    ensures forall i :: 0 <= i < |Points(text)| ==> Trimmed(Points(text)[i])
  {
    NonBlanksStripped(SplitFrom(text, 0, 0));
  }

  // --------------------------------------------------------- classification

  const VaramKeywords := ["viedās administrācijas un reģionālās attīstības ministrij", "varam"]

  const DigitalTopics := [
    "digitāl", "e-pārvald", "e-pakalpojum", "datu pārvaldīb",
    "informācijas sistēm", "informācijas tehnoloģij", "kiberdrošīb",
    "elektronisk", "atvērt", "dati", "digitalizāc",
    "mākslīg", "intelekt", "platforma", "portāl",
    "IKT", "IT drošīb", "informācijas sabiedrīb",
    "tehnoloģiju attīstīb", "inovāci", "e-identit",
    "interoperabilit", "reģistr", "datu apstrād",
    "datu aizsardzīb", "privātum"]

  /** Some keyword occurs in the text. */
  predicate MentionsAny(text: string, keywords: seq<string>)
  {
    exists k :: 0 <= k < |keywords| && Contains(text, keywords[k])
  }

  /** `sum(1 for t in topics if t in text)`. */
  function CountTopics(text: string, topics: seq<string>): (n: nat)
    ensures n <= |topics|
  {
    Count((t: string) => Contains(text, t), topics)
  }

  /** One topic hit means some topic occurs. */
  lemma CountTopicsPositive(text: string, topics: seq<string>)
    ensures CountTopics(text, topics) >= 1 <==> exists i :: 0 <= i < |topics| && Contains(text, topics[i])
  {
    CountPositive((t: string) => Contains(text, t), topics);
  }

  /** Two topic hits means two different entries of the list occur. */
  lemma CountTopicsTwo(text: string, topics: seq<string>)
    ensures CountTopics(text, topics) >= 2 <==>
      exists i, j :: 0 <= i < j < |topics| && Contains(text, topics[i]) && Contains(text, topics[j])
  {
    CountTwo((t: string) => Contains(text, t), topics);
  }

  function LoweredTopics(): (r: seq<string>)
    ensures |r| == |DigitalTopics|
  {
    seq(|DigitalTopics|, i requires 0 <= i < |DigitalTopics| => Lower(DigitalTopics[i]))
  }

  /** The ministry keywords and the lower-cased digital topics a point is
      matched against. */
  datatype Vocabulary = Vocabulary(keywords: seq<string>, topics: seq<string>)

  function SourceVocabulary(): Vocabulary
  {
    Vocabulary(VaramKeywords, LoweredTopics())
  }

  datatype MatchType = Keyword | Content

  /** Whether and how a point is reported: a point goes in when its lower-case
      form contains a ministry keyword or at least two digital topics; it is
      tagged "content" whenever the topics reach two, keyword or not. */
  function Classify(point: string, vocab: Vocabulary): (r: Option<MatchType>)
    ensures r.Some? <==> MentionsAny(Lower(point), vocab.keywords) || CountTopics(Lower(point), vocab.topics) >= 2
    ensures r == Some(Content) <==> CountTopics(Lower(point), vocab.topics) >= 2
    ensures r == Some(Keyword) <==> MentionsAny(Lower(point), vocab.keywords) && CountTopics(Lower(point), vocab.topics) < 2
  {
    var lower := Lower(point);
    var isKeyword := MentionsAny(lower, vocab.keywords);
    var isDigital := CountTopics(lower, vocab.topics) >= 2;
    if isKeyword || isDigital then Some(if isDigital then Content else Keyword) else None
  }

  /** `point[:300] + ("..." if len(point) > 300 else "")`. */
  function Display(point: string): (d: string)
    ensures |point| <= DisplayLimit ==> d == point
    ensures |point| > DisplayLimit ==> |d| == DisplayLimit + |Ellipsis| && d == point[..DisplayLimit] + Ellipsis
    ensures |d| <= DisplayLimit + |Ellipsis|
  {
    Take(point, DisplayLimit) + (if |point| > DisplayLimit then Ellipsis else [])
  }

  // ---------------------------------------------------------------- the scan

  /** The sitting page: unreachable, without a `textBody` block, or the block's
      text with scripts, tags and entities replaced by spaces. */
  datatype SittingPage = PageFailed | NoTextBody | TextBody(text: string)

  /** One `draw_PE` entry of a day listing and what its page yields. */
  datatype Sitting = Sitting(timeRaw: string, title: string, unid: string, page: SittingPage)

  /** A day listing: unreachable, or its sittings in page order. */
  datatype DayListing = ListingFailed | Listing(sittings: seq<Sitting>)

  datatype AgendaEntry = AgendaEntry(
    day: int, time: string, commission: string, point: string, link: string, matchType: MatchType)

  datatype ParliamentResult = ParliamentResult(weekStart: int, weekEnd: int, items: seq<AgendaEntry>)

  /** The entry a point makes, when it is relevant. */
  function EntryFor(day: int, sitting: Sitting, point: string, vocab: Vocabulary): (r: Option<AgendaEntry>)
    ensures r.Some? <==> Classify(point, vocab).Some?
    ensures r.Some? ==> r.value == AgendaEntry(day, TimeText(sitting.timeRaw), sitting.title, Display(point),
                                               SittingLink(sitting.unid), Classify(point, vocab).value)
    ensures r.Some? ==> (r.value.matchType == Content <==> CountTopics(Lower(point), vocab.topics) >= 2)
  {
    match Classify(point, vocab)
    case Some(t) =>
      Some(AgendaEntry(day, TimeText(sitting.timeRaw), sitting.title, Display(point), SittingLink(sitting.unid), t))
    case None => None
  }

  function PointEntries(day: int, sitting: Sitting, points: seq<string>, vocab: Vocabulary): seq<AgendaEntry>
  {
    FilterMap((point: string) => EntryFor(day, sitting, point, vocab), points)
  }

  function SittingPoints(page: SittingPage): seq<string>
  {
    match page
    case TextBody(text) => var t := AgendaText(text); if t == [] then [] else Points(t)
    case _ => []
  }

  function SittingEntries(day: int, sitting: Sitting, vocab: Vocabulary): seq<AgendaEntry>
  {
    PointEntries(day, sitting, SittingPoints(sitting.page), vocab)
  }

  function SittingsEntries(day: int, sittings: seq<Sitting>, vocab: Vocabulary): seq<AgendaEntry>
  {
    if sittings == [] then []
    else SittingsEntries(day, sittings[..|sittings| - 1], vocab) + SittingEntries(day, sittings[|sittings| - 1], vocab)
  }

  function DayEntries(day: int, listing: DayListing, vocab: Vocabulary): seq<AgendaEntry>
  {
    match listing
    case ListingFailed => []
    case Listing(sittings) => SittingsEntries(day, sittings, vocab)
  }

  function DaysEntries(days: seq<int>, listingOf: int -> DayListing, vocab: Vocabulary): seq<AgendaEntry>
  {
    if days == [] then []
    else DaysEntries(days[..|days| - 1], listingOf, vocab) + DayEntries(days[|days| - 1], listingOf(days[|days| - 1]), vocab)
  }

  /** The point loop of one sitting. */
  method ScanPoints(day: int, sitting: Sitting, points: seq<string>, vocab: Vocabulary)
    returns (entries: seq<AgendaEntry>)
    ensures entries == PointEntries(day, sitting, points, vocab)
  {
    entries := [];
    var k := 0;
    while k < |points|
      invariant 0 <= k <= |points|
      invariant entries == PointEntries(day, sitting, points[..k], vocab)
    {
      var entry := EntryFor(day, sitting, points[k], vocab);
      PointEntriesStep(day, sitting, points, k, vocab);
      if entry.Some? {
        entries := entries + [entry.value];
      }
      k := k + 1;
    }
    assert points[..k] == points;
  }

  lemma PointEntriesStep(day: int, sitting: Sitting, points: seq<string>, k: nat, vocab: Vocabulary)
    requires k < |points|
    ensures PointEntries(day, sitting, points[..k + 1], vocab)
      == PointEntries(day, sitting, points[..k], vocab) + Emit(EntryFor(day, sitting, points[k], vocab))
  {
    assert points[..k + 1][..k] == points[..k];
  }

  /** One sitting: its agenda points, then the point loop. */
  method ScanSitting(day: int, sitting: Sitting, vocab: Vocabulary) returns (entries: seq<AgendaEntry>)
    ensures entries == SittingEntries(day, sitting, vocab)
  {
    var points := SittingPoints(sitting.page);
    entries := ScanPoints(day, sitting, points, vocab);
  }

  /** The sitting loop of one day. */
  method ScanDay(day: int, sittings: seq<Sitting>, vocab: Vocabulary) returns (entries: seq<AgendaEntry>)
    ensures entries == SittingsEntries(day, sittings, vocab)
  {
    entries := [];
    var s := 0;
    while s < |sittings|
      invariant 0 <= s <= |sittings|
      invariant entries == SittingsEntries(day, sittings[..s], vocab)
    {
      var found := ScanSitting(day, sittings[s], vocab);
      SittingsEntriesStep(day, sittings, s, vocab);
      entries := entries + found;
      s := s + 1;
    }
    assert sittings[..s] == sittings;
  }

  lemma SittingsEntriesStep(day: int, sittings: seq<Sitting>, s: nat, vocab: Vocabulary)
    requires s < |sittings|
    ensures SittingsEntries(day, sittings[..s + 1], vocab)
      == SittingsEntries(day, sittings[..s], vocab) + SittingEntries(day, sittings[s], vocab)
  {
    assert sittings[..s + 1][..s] == sittings[..s];
  }

  /** Every day's listing could be fetched. */
  predicate AllListed(days: seq<int>, listingOf: int -> DayListing)
  {
    forall i :: 0 <= i < |days| ==> listingOf(days[i]).Listing?
  }

  lemma AllListedStep(days: seq<int>, d: nat, listingOf: int -> DayListing)
    requires d < |days| && AllListed(days[..d], listingOf) && listingOf(days[d]).Listing?
    ensures AllListed(days[..d + 1], listingOf)
  {
    assert forall i :: 0 <= i < d ==> days[..d + 1][i] == days[..d][i];
  }

  lemma DaysEntriesStep(days: seq<int>, d: nat, listingOf: int -> DayListing, vocab: Vocabulary)
    requires d < |days|
    ensures DaysEntries(days[..d + 1], listingOf, vocab)
      == DaysEntries(days[..d], listingOf, vocab) + DayEntries(days[d], listingOf(days[d]), vocab)
  {
    assert days[..d + 1][..d] == days[..d];
  }

  /** The day loop: a day whose listing cannot be fetched ends the loop with
      `None`. */
  method ScanDays(days: seq<int>, listingOf: int -> DayListing, vocab: Vocabulary)
    returns (r: Option<seq<AgendaEntry>>)
    ensures r.None? <==> exists i :: 0 <= i < |days| && listingOf(days[i]).ListingFailed?
    ensures r.Some? ==> r.value == DaysEntries(days, listingOf, vocab)
  {
    var results: seq<AgendaEntry> := [];
    var d := 0;
    while d < |days|
      invariant 0 <= d <= |days|
      invariant AllListed(days[..d], listingOf)
      invariant results == DaysEntries(days[..d], listingOf, vocab)
    {
      var listing := listingOf(days[d]);
      if listing.ListingFailed? {
        r := None;
        assert days[d] in days;
        return;
      }
      var found := ScanDay(days[d], listing.sittings, vocab);
      DaysEntriesStep(days, d, listingOf, vocab);
      AllListedStep(days, d, listingOf);
      assert found == DayEntries(days[d], listing, vocab);
      results := results + found;
      d := d + 1;
    }
    assert days[..d] == days;
    r := Some(results);
  }

  /** The scan of the coming week. `listingOf` stands for fetching a day's
      listing; a day that cannot be fetched ends the whole scan with `None`. */
  method ParliamentAgenda(today: int, listingOf: int -> DayListing) returns (r: Option<ParliamentResult>)
    ensures r.None? <==> exists i :: 0 <= i < 5 && listingOf(WeekDates(today)[i]).ListingFailed?
    ensures r.Some? ==> r.value == ParliamentResult(
      WeekDates(today)[0], WeekDates(today)[4], DaysEntries(WeekDates(today), listingOf, SourceVocabulary()))
  {
    var weekDates := WeekDates(today);
    var found := ScanDays(weekDates, listingOf, SourceVocabulary());
    if found.None? {
      r := None;
    } else {
      r := Some(ParliamentResult(weekDates[0], weekDates[4], found.value));
    }
  }

  /** What every reported entry looks like. */
  predicate WellFormed(e: AgendaEntry)
  {
    |e.point| <= DisplayLimit + |Ellipsis| && SaeimaBase <= e.link && '.' !in e.time
  }

  lemma {:induction false} PointEntriesWellFormed(day: int, sitting: Sitting, points: seq<string>, vocab: Vocabulary)
    ensures forall i :: 0 <= i < |PointEntries(day, sitting, points, vocab)| ==>
      var e := PointEntries(day, sitting, points, vocab)[i];
      WellFormed(e) && e.day == day && e.commission == sitting.title
  {
    var entries := PointEntries(day, sitting, points, vocab);
    forall i | 0 <= i < |entries|
      ensures WellFormed(entries[i]) && entries[i].day == day && entries[i].commission == sitting.title
    {
      FilterMapMember((point: string) => EntryFor(day, sitting, point, vocab), points, entries[i]);
    }
  }

  lemma {:induction false} SittingsEntriesWellFormed(day: int, sittings: seq<Sitting>, vocab: Vocabulary)
    ensures forall i :: 0 <= i < |SittingsEntries(day, sittings, vocab)| ==>
      WellFormed(SittingsEntries(day, sittings, vocab)[i]) && SittingsEntries(day, sittings, vocab)[i].day == day
  {
    if sittings != [] {
      var last := sittings[|sittings| - 1];
      SittingsEntriesWellFormed(day, sittings[..|sittings| - 1], vocab);
      PointEntriesWellFormed(day, last, SittingPoints(last.page), vocab);
    }
  }

  /** Every entry of the week scan is well formed and dated on one of the
      scanned days. */
  lemma {:induction false} DaysEntriesWellFormed(days: seq<int>, listingOf: int -> DayListing, vocab: Vocabulary)
    ensures forall i :: 0 <= i < |DaysEntries(days, listingOf, vocab)| ==>
      WellFormed(DaysEntries(days, listingOf, vocab)[i]) && DaysEntries(days, listingOf, vocab)[i].day in days
  {
    if days != [] {
      var n := |days|;
      var pre := days[..n - 1];
      DaysEntriesWellFormed(pre, listingOf, vocab);
      var listing := listingOf(days[n - 1]);
      if listing.Listing? {
        SittingsEntriesWellFormed(days[n - 1], listing.sittings, vocab);
      }
      var all := DaysEntries(days, listingOf, vocab);
      var head := DaysEntries(pre, listingOf, vocab);
      forall i | 0 <= i < |all| ensures WellFormed(all[i]) && all[i].day in days {
        if i < |head| {
          assert all[i] == head[i];
          assert forall d :: d in pre ==> d in days;
        }
      }
    }
  }
}
