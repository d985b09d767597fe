/** The Cabinet of Ministers agenda scraper: the agenda items of the upcoming
    sitting, the section each one falls under, the items reported by R. Čudars,
    and for those the essence of the annotation and the text of the draft
    protocol decision. */
module Cabinet {
  import opened Seqs
  import opened Text
  import opened Essence

  const BaseUrl := "https://tapportals.mk.gov.lv"
  /** Characters after a legal-act link that are searched for its fields. */
  const Window := 1500
  const QuestionField := "data-column-header-name=\"Jautājums\">"
  const ReporterField := "data-column-header-name=\"Ziņo\"><span"
  const SpanClose := "</span>"
  const DecisionLimit := 600

  // ---------------------------------------------------------------- entities

  /** A match of the legal-act link pattern on the agenda page: where it starts
      and ends, the link path and the raw link text (the "TA" number). */
  datatype TaLink = TaLink(start: nat, end: nat, path: string, id: string)

  /** A section heading of the agenda (tags removed, stripped) and its offset. */
  datatype Section = Section(name: string, pos: nat)

  datatype AgendaItem = AgendaItem(
    pos: nat, taLink: string, taId: string, title: string, reporter: string,
    section: string, essence: string, decision: string)

  // ---------------------------------------------------- the two field searches

  /** First position at or after `i` holding `stop` (or the end): how far a
      `[^stop]*` run reaches. */
  function RunEnd(s: string, i: nat, stop: char): (k: nat)
    requires i <= |s|
    ensures i <= k <= |s|
    ensures forall j :: i <= j < k ==> s[j] != stop
    ensures k < |s| ==> s[k] == stop
    decreases |s| - i
  {
    if i == |s| || s[i] == stop then i else RunEnd(s, i + 1, stop)
  }

  /** `marker([^<]+)` matches at `p`; the question field is searched with this
      shape. */
  predicate TextFieldAt(s: string, marker: string, p: nat)
  {
    OccursAt(s, marker, p) && p + |marker| < |s| && s[p + |marker|] != '<'
  }

  function TextFieldText(s: string, marker: string, p: nat): (t: string)
    requires TextFieldAt(s, marker, p)
    ensures |t| > 0 && '<' !in t
    ensures var b := p + |marker|;
            && b + |t| <= |s| && t == s[b..b + |t|]
            && (b + |t| < |s| ==> s[b + |t|] == '<')
  {
    var b := p + |marker|;
    s[b..RunEnd(s, b, '<')]
  }

  /** `marker[^>]*>([^<]*)</span>` matches at `p`; the reporter field is searched
      with this shape. Neither run can stop short of its delimiter, so there is
      one way to match. */
  predicate SpanFieldAt(s: string, marker: string, p: nat)
  {
    && OccursAt(s, marker, p)
    && var q := RunEnd(s, p + |marker|, '>');
       q < |s| && OccursAt(s, SpanClose, RunEnd(s, q + 1, '<'))
  }

  function SpanFieldText(s: string, marker: string, p: nat): (t: string)
    requires SpanFieldAt(s, marker, p)
    ensures '<' !in t
    ensures var b := p + |marker|; var q := RunEnd(s, b, '>');
            && q < |s| && s[q] == '>' && (forall j :: b <= j < q ==> s[j] != '>')
            && q + 1 + |t| <= |s| && t == s[q + 1..q + 1 + |t|]
            && OccursAt(s, SpanClose, q + 1 + |t|)
  {
    var q := RunEnd(s, p + |marker|, '>');
    s[q + 1..RunEnd(s, q + 1, '<')]
  }

  /** `re.search` for a text field: the text at its leftmost match. */
  function FindTextField(s: string, marker: string): (r: Option<string>)
    ensures r.None? <==> forall p: nat :: p <= |s| ==> !TextFieldAt(s, marker, p)
    ensures r.Some? ==> |r.value| > 0 && '<' !in r.value
  {
    var at := (p: nat) => TextFieldAt(s, marker, p);
    match FirstFrom(|s|, at, 0)
    case Some(p) => Some(TextFieldText(s, marker, p))
    case None =>
      forall p: nat | p <= |s| ensures !TextFieldAt(s, marker, p) {
        assert !at(p);
      }
      None
  }

  /** The text comes from the leftmost match. */
  lemma FindTextFieldLeftmost(s: string, marker: string, p: nat)
    requires p <= |s| && TextFieldAt(s, marker, p)
    requires forall k: nat :: k < p ==> !TextFieldAt(s, marker, k)
    ensures FindTextField(s, marker) == Some(TextFieldText(s, marker, p))
  {
    var at := (p: nat) => TextFieldAt(s, marker, p);
    assert at(p);
    var f := FirstFrom(|s|, at, 0);
    assert f.Some? && f.value == p;
  }

  /** `re.search` for a span field: the text at its leftmost match. */
  function FindSpanField(s: string, marker: string): (r: Option<string>)
    ensures r.None? <==> forall p: nat :: p <= |s| ==> !SpanFieldAt(s, marker, p)
    ensures r.Some? ==> '<' !in r.value
  {
    var at := (p: nat) => SpanFieldAt(s, marker, p);
    match FirstFrom(|s|, at, 0)
    case Some(p) => Some(SpanFieldText(s, marker, p))
    case None =>
      forall p: nat | p <= |s| ensures !SpanFieldAt(s, marker, p) {
        assert !at(p);
      }
      None
  }

  /** The text comes from the leftmost match. */
  lemma FindSpanFieldLeftmost(s: string, marker: string, p: nat)
    requires p <= |s| && SpanFieldAt(s, marker, p)
    requires forall k: nat :: k < p ==> !SpanFieldAt(s, marker, k)
    ensures FindSpanField(s, marker) == Some(SpanFieldText(s, marker, p))
  {
    var at := (p: nat) => SpanFieldAt(s, marker, p);
    assert at(p);
    var f := FirstFrom(|s|, at, 0);
    assert f.Some? && f.value == p;
  }

  // ------------------------------------------------------- recognising items

  /** The 1500 characters that follow a link. */
  function WindowAfter(html: string, link: TaLink): string
  {
    Slice(html, link.end, link.end + Window)
  }

  /** A link becomes an agenda item exactly when both fields are found after it;
      the item starts where the link starts and points at the link's page. */
  function Recognise(html: string, link: TaLink): (r: Option<AgendaItem>)
    ensures r.Some? <==> FindTextField(WindowAfter(html, link), QuestionField).Some? && FindSpanField(WindowAfter(html, link), ReporterField).Some?
    ensures r.Some? ==> r.value.pos == link.start && r.value.taLink == BaseUrl + link.path
    ensures r.Some? ==> r.value.section == "" && r.value.essence == "" && r.value.decision == ""
  {
    var w := WindowAfter(html, link);
    var q := FindTextField(w, QuestionField);
    var z := FindSpanField(w, ReporterField);
    if q.Some? && z.Some? then
      Some(AgendaItem(link.start, BaseUrl + link.path, Strip(link.id), Strip(q.value), Strip(z.value), "", "", ""))
    else None
  }

  /** The title and the reporter are field texts without surrounding
      whitespace and without a tag character. */
  lemma RecognisedFields(html: string, link: TaLink)
    requires Recognise(html, link).Some?
    ensures var item := Recognise(html, link).value;
            && item.title == Strip(FindTextField(WindowAfter(html, link), QuestionField).value)
            && item.reporter == Strip(FindSpanField(WindowAfter(html, link), ReporterField).value)
            && '<' !in item.title && '<' !in item.reporter && item.taId == Strip(link.id)
            && (item.title != [] ==> !IsSpace(item.title[0]) && !IsSpace(item.title[|item.title| - 1]))
            && (item.reporter != [] ==> !IsSpace(item.reporter[0]) && !IsSpace(item.reporter[|item.reporter| - 1]))
  {
    var w := WindowAfter(html, link);
    StripNoChar(FindTextField(w, QuestionField).value, '<');
    StripNoChar(FindSpanField(w, ReporterField).value, '<');
  }

  function Recognised(html: string, links: seq<TaLink>): seq<AgendaItem>
  {
    FilterMap((link: TaLink) => Recognise(html, link), links)
  }

  /** The item loop: every link is looked at in order, and an item is appended
      when both fields are found. */
  lemma RecognisedStep(html: string, links: seq<TaLink>, i: nat)
    requires i < |links|
    ensures Recognised(html, links[..i + 1]) == Recognised(html, links[..i]) + Emit(Recognise(html, links[i]))
  {
    assert links[..i + 1][..i] == links[..i];
  }

  method CollectItems(html: string, links: seq<TaLink>) returns (items: seq<AgendaItem>)
    ensures items == Recognised(html, links)
  {
    items := [];
    var i := 0;
    while i < |links|
      invariant 0 <= i <= |links|
      invariant items == Recognised(html, links[..i])
    {
      RecognisedStep(html, links, i);
      var found := Recognise(html, links[i]);
      if found.Some? {
        items := items + [found.value];
      }
      i := i + 1;
    }
    assert links[..i] == links;
  }

  // --------------------------------------------------------------- sections

  /** The last section (in page order) that starts strictly before `pos`, or
      "Unknown" when there is none. */
  function SectionFor(sections: seq<Section>, pos: int): string
  {
    if sections == [] then "Unknown"
    else if pos > sections[|sections| - 1].pos then sections[|sections| - 1].name
    else SectionFor(sections[..|sections| - 1], pos)
  }

  /** An item gets the name of the latest section heading that starts before it. */
  lemma {:induction false} SectionForLatest(sections: seq<Section>, pos: int, j: nat)
    requires j < |sections| && sections[j].pos < pos
    requires forall k :: j < k < |sections| ==> sections[k].pos >= pos
    ensures SectionFor(sections, pos) == sections[j].name
  {
    if j < |sections| - 1 {
      SectionForLatest(sections[..|sections| - 1], pos, j);
    }
  }

  /** An item before every heading (or at the very offset of the first) is in
      section "Unknown". */
  lemma {:induction false} SectionForUnknown(sections: seq<Section>, pos: int)
    requires forall k :: 0 <= k < |sections| ==> sections[k].pos >= pos
    ensures SectionFor(sections, pos) == "Unknown"
  {
    if sections != [] {
      SectionForUnknown(sections[..|sections| - 1], pos);
    }
  }

  /** Sections [0, 100, 250]: offsets 50, 150 and 300 fall in the first, second
      and third; offset 0 equals the first heading's and is "Unknown". */
  lemma SectionForSample()
    ensures var secs := [Section("A", 0), Section("B", 100), Section("C", 250)];
            && SectionFor(secs, 50) == "A" && SectionFor(secs, 150) == "B"
            && SectionFor(secs, 300) == "C" && SectionFor(secs, 0) == "Unknown"
  {
    var secs := [Section("A", 0), Section("B", 100), Section("C", 250)];
    SectionForLatest(secs, 50, 0);
    SectionForLatest(secs, 150, 1);
    SectionForLatest(secs, 300, 2);
    SectionForUnknown(secs, 0);
  }

  function WithSections(items: seq<AgendaItem>, sections: seq<Section>): (r: seq<AgendaItem>)
    ensures |r| == |items|
  {
    seq(|items|, i requires 0 <= i < |items| => items[i].(section := SectionFor(sections, items[i].pos)))
  }

  /** The section loop, in place on the item list: "Unknown" first, then the
      name of the first section, scanning backwards, that starts before the item. */
  method AssignSections(items: array<AgendaItem>, sections: seq<Section>)
    modifies items
    ensures items[..] == WithSections(old(items[..]), sections)
  {
    var i := 0;
    while i < items.Length
      invariant 0 <= i <= items.Length
      invariant forall k :: 0 <= k < i ==> items[k] == old(items[k]).(section := SectionFor(sections, old(items[k]).pos))
      invariant forall k :: i <= k < items.Length ==> items[k] == old(items[k])
    {
      ghost var orig := items[i];
      items[i] := items[i].(section := "Unknown");
      var j := |sections|;
      assert sections[..j] == sections;
      while j > 0
        invariant 0 <= j <= |sections|
        invariant items[i] == orig.(section := "Unknown")
        invariant SectionFor(sections, orig.pos) == SectionFor(sections[..j], orig.pos)
        invariant forall k :: 0 <= k < i ==> items[k] == old(items[k]).(section := SectionFor(sections, old(items[k]).pos))
        invariant forall k :: i < k < items.Length ==> items[k] == old(items[k])
      {
        var sec := sections[j - 1];
        if items[i].pos > sec.pos {
          assert sections[..j][j - 1] == sec;
          items[i] := items[i].(section := sec.name);
          break;
        }
        assert sections[..j][..j - 1] == sections[..j - 1];
        j := j - 1;
      }
      i := i + 1;
    }
  }

  // ------------------------------------------------------- the Čudars filter

  /** `(?i)[čc]udars` matches at `i`: case-insensitive as Python's `re` has it,
      where `ſ` (long s) also matches `s`. */
  predicate CudarsAt(s: string, i: nat)
  {
    && i + 6 <= |s|
    && s[i] in {'c', 'C', 'č', 'Č'} && s[i + 1] in {'u', 'U'} && s[i + 2] in {'d', 'D'}
    && s[i + 3] in {'a', 'A'} && s[i + 4] in {'r', 'R'} && s[i + 5] in {'s', 'S', 'ſ'}
  }

  predicate MentionsCudars(reporter: string)
  {
    exists i :: 0 <= i <= |reporter| && CudarsAt(reporter, i)
  }

  lemma CudarsSamples()
    ensures MentionsCudars("R. Čudars") && MentionsCudars("r. cudars") && MentionsCudars("R.CUDARS")
    ensures !MentionsCudars("R. Jansons")
  {
    assert CudarsAt("R. Čudars", 3);
    assert CudarsAt("r. cudars", 3);
    assert CudarsAt("R.CUDARS", 2);
  }

  function CudarsItems(items: seq<AgendaItem>): seq<AgendaItem>
  {
    Filter((item: AgendaItem) => MentionsCudars(item.reporter), items)
  }

  /** Exactly the items whose reporter field mentions Čudars are kept, in order. */
  lemma CudarsItemsExact(items: seq<AgendaItem>)
    ensures forall i :: 0 <= i < |CudarsItems(items)| ==>
      CudarsItems(items)[i] in items && MentionsCudars(CudarsItems(items)[i].reporter)
    ensures forall i :: 0 <= i < |items| && MentionsCudars(items[i].reporter) ==> items[i] in CudarsItems(items)
  {
  }

  /** The filter keeps the order of the item list. */
  lemma CudarsItemsAppend(a: seq<AgendaItem>, b: seq<AgendaItem>)
    ensures CudarsItems(a + b) == CudarsItems(a) + CudarsItems(b)
  {
    FilterAppend((item: AgendaItem) => MentionsCudars(item.reporter), a, b);
  }

  /** A single item is kept exactly when its reporter mentions Čudars. */
  lemma CudarsItemsOne(item: AgendaItem)
    ensures CudarsItems([item]) == if MentionsCudars(item.reporter) then [item] else []
  {
    FilterOne((item: AgendaItem) => MentionsCudars(item.reporter), item);
  }

  // ----------------------------------------------------- the protocol decision

  /** `re.match(r'^\d+-TA-\d+', line)`: the title line with the TA number. */
  predicate IsTaLine(line: string)
  {
    var k := DigitEnd(line, 0);
    k > 0 && OccursAt(line, "-TA-", k) && k + 4 < |line| && IsDigit(line[k + 4])
  }

  /** `re.match(r'^\d+\.$', line)`: a bare item number such as "2."
      (`$` also matches before a final newline). */
  predicate IsMarker(line: string)
  {
    var k := DigitEnd(line, 0);
    k > 0 && k < |line| && line[k] == '.' && (|line| == k + 1 || (|line| == k + 2 && line[k + 1] == '\n'))
  }

  /** `re.match(r'^\d+\.\s*$', s)`: an item number followed only by whitespace. */
  predicate IsMarkerWs(s: string)
  {
    var k := DigitEnd(s, 0);
    k > 0 && k < |s| && s[k] == '.' && AllSpace(s[k + 1..])
  }

  /** The page footer, where the decision text ends. */
  predicate IsFooter(line: string)
  {
    Contains(line, "© Valsts") || Contains(line, "atbalsts@") || Contains(line, "Versija")
  }

  /** The three values of the `capture` flag: `False`, `"next"` and `True`. */
  datatype CaptureState = Idle | AwaitMarker | Capturing

  /** The decision lines the capture loop collects from `lines` when it starts
      in state `st`: a TA line (re)starts the wait for an item number, the title
      lines before it are skipped, and from the first number on every line is
      kept until a footer line ends the loop. */
  function Captured(lines: seq<string>, st: CaptureState): seq<string>
  {
    if lines == [] then []
    else
      var line := lines[0];
      if IsTaLine(line) then Captured(lines[1..], AwaitMarker)
      else if st == AwaitMarker && !IsMarker(line) then Captured(lines[1..], AwaitMarker)
      else
        var st' := if st == AwaitMarker then Capturing else st;
        if st' == Capturing then
          (if IsFooter(line) then [] else [line] + Captured(lines[1..], Capturing))
        else Captured(lines[1..], st')
  }

  /** One step of the capture loop, on the lines from `i` on. */
  lemma CapturedUnfold(lines: seq<string>, i: nat, st: CaptureState)
    requires i < |lines|
    ensures IsTaLine(lines[i]) ==> Captured(lines[i..], st) == Captured(lines[i + 1..], AwaitMarker)
    ensures !IsTaLine(lines[i]) && st == AwaitMarker && !IsMarker(lines[i]) ==>
      Captured(lines[i..], st) == Captured(lines[i + 1..], AwaitMarker)
    ensures !IsTaLine(lines[i]) && st == Idle ==> Captured(lines[i..], st) == Captured(lines[i + 1..], Idle)
    ensures !IsTaLine(lines[i]) && (st == Capturing || (st == AwaitMarker && IsMarker(lines[i]))) ==>
      Captured(lines[i..], st) == if IsFooter(lines[i]) then [] else [lines[i]] + Captured(lines[i + 1..], Capturing)
  {
    assert lines[i..][0] == lines[i] && lines[i..][1..] == lines[i + 1..];
  }

  /** A TA line restarts the wait for an item number: as long as no footer came
      before it, what is captured after it does not depend on what came before. */
  lemma {:induction false} CaptureRestartsAtTaLine(lines: seq<string>, i: nat, st: CaptureState)
    requires i < |lines| && IsTaLine(lines[i])
    requires forall k :: 0 <= k < i ==> !IsFooter(lines[k])
    ensures Captured(lines, st) == Captured(lines[..i], st) + Captured(lines[i + 1..], AwaitMarker)
    decreases i
  {
    if i == 0 {
      assert lines[..0] == [];
    } else {
      var line, rest := lines[0], lines[1..];
      assert lines[..i][0] == line && lines[..i][1..] == rest[..i - 1];
      assert rest[i - 1] == lines[i] && rest[i..] == lines[i + 1..];
      assert !IsFooter(line);
      var next :=
        if IsTaLine(line) || (st == AwaitMarker && !IsMarker(line)) then AwaitMarker
        else if st == AwaitMarker then Capturing else st;
      forall k | 0 <= k < i - 1 ensures !IsFooter(rest[k]) {
        assert rest[k] == lines[k + 1];
      }
      CaptureRestartsAtTaLine(rest, i - 1, next);
    }
  }

  method CaptureDecisionLines(lines: seq<string>) returns (decisionLines: seq<string>)
    ensures decisionLines == Captured(lines, Idle)
  {
    decisionLines := [];
    var capture := Idle;
    var i := 0;
    assert lines[0..] == lines;
    while i < |lines|
      invariant 0 <= i <= |lines|
      invariant decisionLines + Captured(lines[i..], capture) == Captured(lines, Idle)
    {
      var line := lines[i];
      ghost var rest := lines[i + 1..];
      CapturedUnfold(lines, i, capture);
      if IsTaLine(line) {
        capture := AwaitMarker;
        i := i + 1;
        continue;
      }
      if capture == AwaitMarker && !IsMarker(line) {
        i := i + 1;
        continue;
      }
      if capture == AwaitMarker && IsMarker(line) {
        capture := Capturing;
      }
      if capture == Capturing {
        if IsFooter(line) {
          // The footer's `break`: nothing follows the loop here, so it returns.
          assert decisionLines + [] == Captured(lines, Idle);
          return;
        }
        assert decisionLines + ([line] + Captured(rest, Capturing)) == Captured(lines, Idle);
        assert decisionLines + ([line] + Captured(rest, Capturing)) == (decisionLines + [line]) + Captured(rest, Capturing);
        decisionLines := decisionLines + [line];
      }
      i := i + 1;
    }
    assert lines[i..] == [];
  }

  /** Every captured line is one of the input lines, and none is a TA line or
      a footer line. */
  lemma {:induction false} CapturedLinesClean(lines: seq<string>, st: CaptureState)
    ensures forall i :: 0 <= i < |Captured(lines, st)| ==>
      Captured(lines, st)[i] in lines && !IsTaLine(Captured(lines, st)[i]) && !IsFooter(Captured(lines, st)[i])
  {
    if lines != [] {
      CapturedLinesClean(lines[1..], AwaitMarker);
      CapturedLinesClean(lines[1..], Capturing);
      CapturedLinesClean(lines[1..], st);
      var c := Captured(lines, st);
      forall i | 0 <= i < |c| ensures c[i] in lines {
        assert lines == [lines[0]] + lines[1..];
      }
    }
  }

  /** Nothing is captured from a text without a TA line. */
  lemma {:induction false} CaptureNeedsTaLine(lines: seq<string>)
    requires forall i :: 0 <= i < |lines| ==> !IsTaLine(lines[i])
    ensures Captured(lines, Idle) == []
  {
    if lines != [] {
      CaptureNeedsTaLine(lines[1..]);
    }
  }

  /** Unless capture is already on, what is captured starts with an item number. */
  lemma {:induction false} CaptureStartsAtMarker(lines: seq<string>, st: CaptureState)
    requires st != Capturing
    requires Captured(lines, st) != []
    ensures IsMarker(Captured(lines, st)[0])
  {
    var line := lines[0];
    if IsTaLine(line) {
      CaptureStartsAtMarker(lines[1..], AwaitMarker);
    } else if st == AwaitMarker && !IsMarker(line) {
      CaptureStartsAtMarker(lines[1..], AwaitMarker);
    } else if st == Idle {
      CaptureStartsAtMarker(lines[1..], Idle);
    }
  }

  /** A bare item number is never a TA line: after the digits comes a dot, not
      a dash. */
  lemma MarkerIsNotTaLine(line: string)
    requires IsMarker(line)
    ensures !IsTaLine(line)
  {
  }

  /** While waiting for an item number, every line is skipped until the first
      bare number, and from that number on the lines are captured. */
  lemma {:induction false} CaptureFromFirstMarker(lines: seq<string>, m: nat)
    requires m < |lines| && IsMarker(lines[m])
    requires forall k :: 0 <= k < m ==> !IsMarker(lines[k]) && !IsTaLine(lines[k])
    ensures Captured(lines, AwaitMarker) == Captured(lines[m..], Capturing)
    decreases m
  {
    if m == 0 {
      MarkerIsNotTaLine(lines[0]);
      assert lines[0..] == lines;
    } else {
      var rest := lines[1..];
      assert !IsMarker(lines[0]) && !IsTaLine(lines[0]);
      forall k | 0 <= k < m - 1 ensures !IsMarker(rest[k]) && !IsTaLine(rest[k]) {
        assert rest[k] == lines[k + 1];
      }
      assert rest[m - 1] == lines[m];
      CaptureFromFirstMarker(rest, m - 1);
      assert rest[m - 1..] == lines[m..];
    }
  }

  /** While waiting for an item number, a text with neither a number nor a TA
      line yields nothing. */
  lemma {:induction false} CaptureWaitsForMarker(lines: seq<string>)
    requires forall k :: 0 <= k < |lines| ==> !IsMarker(lines[k]) && !IsTaLine(lines[k])
    ensures Captured(lines, AwaitMarker) == []
  {
    if lines != [] {
      var rest := lines[1..];
      assert !IsMarker(lines[0]) && !IsTaLine(lines[0]);
      forall k | 0 <= k < |rest| ensures !IsMarker(rest[k]) && !IsTaLine(rest[k]) {
        assert rest[k] == lines[k + 1];
      }
      CaptureWaitsForMarker(rest);
    }
  }

  /** Before the first TA line capture is off and no line is looked at, not
      even a footer line: the capture is that of the lines after the TA line
      while waiting for an item number. */
  lemma {:induction false} CaptureIdleUntilTaLine(lines: seq<string>, i: nat)
    requires i < |lines| && IsTaLine(lines[i])
    requires forall k :: 0 <= k < i ==> !IsTaLine(lines[k])
    ensures Captured(lines, Idle) == Captured(lines[i + 1..], AwaitMarker)
    decreases i
  {
    if i > 0 {
      var rest := lines[1..];
      assert !IsTaLine(lines[0]);
      forall k | 0 <= k < i - 1 ensures !IsTaLine(rest[k]) {
        assert rest[k] == lines[k + 1];
      }
      assert rest[i - 1] == lines[i];
      CaptureIdleUntilTaLine(rest, i - 1);
      assert rest[i..] == lines[i + 1..];
    }
  }

  /** While capturing in a text without TA lines, the captured lines are the
      input up to (not including) its first footer line. */
  lemma {:induction false} CaptureStopsAtFooter(lines: seq<string>)
    requires forall i :: 0 <= i < |lines| ==> !IsTaLine(lines[i])
    ensures Captured(lines, Capturing) <= lines
    ensures forall k :: 0 <= k < |Captured(lines, Capturing)| ==> !IsFooter(lines[k])
    ensures |Captured(lines, Capturing)| < |lines| ==> IsFooter(lines[|Captured(lines, Capturing)|])
  {
    if lines != [] && !IsFooter(lines[0]) {
      var rest := lines[1..];
      CaptureStopsAtFooter(rest);
      var c := Captured(rest, Capturing);
      assert Captured(lines, Capturing) == [lines[0]] + c;
      forall k | 0 <= k < |c| + 1 ensures !IsFooter(lines[k]) {
        if k > 0 { assert lines[k] == rest[k - 1]; }
      }
      if |c| < |rest| {
        assert lines[|c| + 1] == rest[|c|];
      }
    }
  }

  /** One step of the merge loop. */
  function MergeStep(merged: seq<string>, dl: string): seq<string>
  {
    if IsMarker(dl) && merged != [] then merged + [dl + " "]
    else if merged != [] && IsMarkerWs(merged[|merged| - 1]) then
      merged[|merged| - 1 := merged[|merged| - 1] + dl]
    else merged + [dl]
  }

  /** What the merge loop builds from the decision lines: an item number and
      the line after it become one entry. */
  function Merged(dls: seq<string>): seq<string>
  {
    if dls == [] then [] else MergeStep(Merged(dls[..|dls| - 1]), dls[|dls| - 1])
  }

  method MergeMarkers(dls: seq<string>) returns (merged: seq<string>)
    ensures merged == Merged(dls)
  {
    merged := [];
    var i := 0;
    while i < |dls|
      invariant 0 <= i <= |dls|
      invariant merged == Merged(dls[..i])
    {
      var dl := dls[i];
      assert dls[..i + 1][..i] == dls[..i] && dls[..i + 1][i] == dl;
      assert Merged(dls[..i + 1]) == MergeStep(merged, dl);
      if IsMarker(dl) && merged != [] {
        merged := merged + [dl + " "];
      } else if merged != [] && IsMarkerWs(merged[|merged| - 1]) {
        merged := merged[|merged| - 1 := merged[|merged| - 1] + dl];
      } else {
        merged := merged + [dl];
      }
      i := i + 1;
    }
    assert dls[..i] == dls;
  }

  /** The characters of the entries, in order. */
  function Concat(parts: seq<string>): string
  {
    if parts == [] then [] else Concat(parts[..|parts| - 1]) + parts[|parts| - 1]
  }

  /** The decision lines with a space put after every item number that is not
      the first line. */
  function Spaced(dls: seq<string>): seq<string>
  {
    seq(|dls|, i requires 0 <= i < |dls| => if i > 0 && IsMarker(dls[i]) then dls[i] + " " else dls[i])
  }

  lemma {:induction false} MergedEmpty(dls: seq<string>)
    ensures Merged(dls) == [] <==> dls == []
  {
  }

  lemma MergeStepText(merged: seq<string>, dl: string)
    ensures Concat(MergeStep(merged, dl)) ==
            Concat(merged) + (if IsMarker(dl) && merged != [] then dl + " " else dl)
  {
    if !(IsMarker(dl) && merged != []) && merged != [] && IsMarkerWs(merged[|merged| - 1]) {
      var n := |merged|;
      var m' := merged[..n - 1] + [merged[n - 1] + dl];
      assert m'[..n - 1] == merged[..n - 1];
    }
  }

  /** Merging loses, adds and reorders no text: the entries spell out the
      decision lines, with one space added after each later item number. */
  lemma {:induction false} MergeKeepsText(dls: seq<string>)
    ensures Concat(Merged(dls)) == Concat(Spaced(dls))
  {
    if dls != [] {
      var n := |dls|;
      var pre := dls[..n - 1];
      MergeKeepsText(pre);
      MergedEmpty(pre);
      MergeStepText(Merged(pre), dls[n - 1]);
      assert Spaced(dls)[..n - 1] == Spaced(pre);
    }
  }

  /** A bare item number, followed by a space or not, is what the merge waits
      to glue the next line to. */
  lemma MarkerIsMarkerWs(m: string)
    requires IsMarker(m)
    ensures IsMarkerWs(m) && IsMarkerWs(m + " ")
  {
    var k := DigitEnd(m, 0);
    var m' := m + " ";
    assert m'[..|m|] == m;
    DigitEndAppend(m, " ");
    assert m'[k + 1..] == m[k + 1..] + " ";
  }

  /** The digit run of a text that does not end in digits is unchanged by
      appending. */
  lemma DigitEndAppend(a: string, b: string)
    requires DigitEnd(a, 0) < |a|
    ensures DigitEnd(a + b, 0) == DigitEnd(a, 0)
  {
    var k := DigitEnd(a, 0);
    DigitEndAppendFrom(a, b, 0, k);
  }

  lemma {:induction false} DigitEndAppendFrom(a: string, b: string, i: nat, k: nat)
    requires i <= k < |a| && k == DigitEnd(a, i)
    ensures DigitEnd(a + b, i) == k
    decreases k - i
  {
    assert (a + b)[i] == a[i];
    if i < k {
      DigitEndAppendFrom(a, b, i + 1, k);
    }
  }

  /** The first line, a bare number, is glued to the line after it. */
  lemma MergeGluesFirst(m: string, l: string)
    requires IsMarker(m) && !IsMarker(l)
    ensures Merged([m, l]) == [m + l]
  {
    MarkerIsMarkerWs(m);
    MergedSnoc([], m);
    assert [] + [m] == [m];
    MergedSnoc([m], l);
    assert [m] + [l] == [m, l];
  }

  /** A later bare number gets a space and is glued to the line after it. */
  lemma MergeGluesLater(pre: seq<string>, m: string, l: string)
    requires pre != [] && IsMarker(m) && !IsMarker(l)
    ensures Merged(pre + [m, l]) == Merged(pre) + [m + " " + l]
  {
    MarkerIsMarkerWs(m);
    MergedEmpty(pre);
    var before := Merged(pre);
    MergedSnoc(pre, m);
    MergedSnoc(pre + [m], l);
    assert pre + [m] + [l] == pre + [m, l];
    var mid := before + [m + " "];
    assert MergeStep(before, m) == mid;
    assert mid[|mid| - 1] == m + " ";
    assert MergeStep(mid, l) == mid[|mid| - 1 := m + " " + l];
    assert mid[|mid| - 1 := m + " " + l] == before + [m + " " + l];
  }

  /** A line that is not glued on opens an entry of its own: the first line,
      or a line that is no bare number after an entry that is not one either. */
  lemma MergeKeepsLine(pre: seq<string>, l: string)
    requires Merged(pre) == [] || (!IsMarker(l) && !IsMarkerWs(Merged(pre)[|Merged(pre)| - 1]))
    ensures Merged(pre + [l]) == Merged(pre) + [l]
  {
    MergedSnoc(pre, l);
  }

  /** A later bare number opens an entry of its own, with a space after it. */
  lemma MergeOpensAtMarker(pre: seq<string>, m: string)
    requires pre != [] && IsMarker(m)
    ensures Merged(pre + [m]) == Merged(pre) + [m + " "]
  {
    MergedEmpty(pre);
    MergedSnoc(pre, m);
  }

  /** A line that is no bare number, after an entry that is one, is glued to
      that entry. */
  lemma MergeGluesToNumber(pre: seq<string>, l: string)
    requires !IsMarker(l) && Merged(pre) != [] && IsMarkerWs(Merged(pre)[|Merged(pre)| - 1])
    ensures var b := Merged(pre); Merged(pre + [l]) == b[..|b| - 1] + [b[|b| - 1] + l]
  {
    MergedSnoc(pre, l);
    var b := Merged(pre);
    assert b[|b| - 1 := b[|b| - 1] + l] == b[..|b| - 1] + [b[|b| - 1] + l];
  }

  /** Merging never makes more entries than there are lines. */
  lemma {:induction false} MergedLength(dls: seq<string>)
    ensures |Merged(dls)| <= |dls|
  {
    if dls != [] {
      MergedLength(dls[..|dls| - 1]);
    }
  }

  /** `[l.strip() for l in text.split('\n') if l.strip()]`. */
  function Lines(text: string): seq<string>
  {
    FilterMap(NonBlank, SplitOn(text, '\n'))
  }

  /** Every line is non-empty, has no whitespace at either end and contains no
      newline. */
  lemma LinesStripped(text: string)
    ensures forall i :: 0 <= i < |Lines(text)| ==>
      var l := Lines(text)[i];
      Trimmed(l) && '\n' !in l
  {
    var pieces := SplitOn(text, '\n');
    forall i | 0 <= i < |Lines(text)|
      ensures Trimmed(Lines(text)[i]) && '\n' !in Lines(text)[i]
    {
      var l := Lines(text)[i];
      FilterMapMember(NonBlank, pieces, l);
      var j :| 0 <= j < |pieces| && NonBlank(pieces[j]) == Some(l);
      StripNoChar(pieces[j], '\n');
    }
  }

  /** `" ".join(merged).strip()[:600] if merged else ""`. */
  function Decision(lines: seq<string>): (d: string)
    ensures |d| <= DecisionLimit
  {
    var merged := Merged(Captured(lines, Idle));
    if merged == [] then [] else Take(Strip(Join(merged, " ")), DecisionLimit)
  }

  /** A protocol text: the TA title line, the long title, two numbered clauses
      and the footer. */
  const SampleProtocol := ["1-TA-2", "T", "1.", "A", "2.", "B", "Versija"]

  lemma SampleFooters()
    ensures IsFooter(SampleProtocol[6])
    ensures forall i :: 2 <= i < 6 ==> !IsFooter(SampleProtocol[i])
  {
    var l := SampleProtocol;
    assert OccursAt(l[6], "Versija", 0);
    forall i | 2 <= i < 6 ensures !IsFooter(l[i]) {
      NotContains(l[i], "© Valsts", '©');
      NotContains(l[i], "atbalsts@", '@');
      NotContains(l[i], "Versija", 'V');
    }
  }

  lemma SampleLineKinds()
    ensures IsTaLine(SampleProtocol[0])
    ensures forall i :: 1 <= i < 7 ==> !IsTaLine(SampleProtocol[i])
    ensures !IsMarker(SampleProtocol[1]) && IsMarker(SampleProtocol[2]) && !IsMarker(SampleProtocol[3])
    ensures IsMarker(SampleProtocol[4]) && !IsMarker(SampleProtocol[5])
  {
    var l := SampleProtocol;
    assert DigitEnd(l[0], 0) == 1;
    assert DigitEnd(l[1], 0) == 0 && DigitEnd(l[3], 0) == 0;
    assert DigitEnd(l[5], 0) == 0 && DigitEnd(l[6], 0) == 0;
    assert DigitEnd(l[2], 0) == 1 && DigitEnd(l[4], 0) == 1;
  }

  lemma SampleCaptured()
    ensures Captured(SampleProtocol, Idle) == ["1.", "A", "2.", "B"]
  {
    var l := SampleProtocol;
    SampleFooters();
    SampleLineKinds();
    assert Captured(l[6..], Capturing) == [];
    assert Captured(l[5..], Capturing) == [l[5]];
    assert Captured(l[4..], Capturing) == [l[4], l[5]];
    assert Captured(l[3..], Capturing) == [l[3], l[4], l[5]];
    assert Captured(l[2..], AwaitMarker) == l[2..6];
    assert Captured(l[1..], AwaitMarker) == l[2..6];
  }

  lemma MergedSnoc(dls: seq<string>, dl: string)
    ensures Merged(dls + [dl]) == MergeStep(Merged(dls), dl)
  {
    assert (dls + [dl])[..|dls|] == dls;
  }

  lemma SampleMarkers()
    ensures IsMarker("1.") && IsMarker("2.") && !IsMarker("A") && !IsMarker("B")
    ensures IsMarkerWs("1.") && IsMarkerWs("2. ") && !IsMarkerWs("1.A")
  {
    assert DigitEnd("1.", 0) == 1 && DigitEnd("2.", 0) == 1;
    assert DigitEnd("A", 0) == 0 && DigitEnd("B", 0) == 0;
    assert DigitEnd("2. ", 0) == 1 && DigitEnd("1.A", 0) == 1;
  }

  /** The four steps of the merge loop on the sample. */
  lemma SampleMergeSteps()
    ensures MergeStep([], "1.") == ["1."]
    ensures MergeStep(["1."], "A") == ["1.A"]
    ensures MergeStep(["1.A"], "2.") == ["1.A", "2. "]
    ensures MergeStep(["1.A", "2. "], "B") == ["1.A", "2. B"]
  {
    SampleMarkers();
    assert "1." + "A" == "1.A" && "2." + " " == "2. " && "2. " + "B" == "2. B";
  }

  lemma SampleMerged()
    ensures Merged(["1.", "A", "2.", "B"]) == ["1.A", "2. B"]
  {
    SampleMergeSteps();
    MergedSnoc([], "1.");
    assert [] + ["1."] == ["1."];
    MergedSnoc(["1."], "A");
    assert ["1."] + ["A"] == ["1.", "A"];
    MergedSnoc(["1.", "A"], "2.");
    assert ["1.", "A"] + ["2."] == ["1.", "A", "2."];
    MergedSnoc(["1.", "A", "2."], "B");
    assert ["1.", "A", "2."] + ["B"] == ["1.", "A", "2.", "B"];
  }

  /** The first item number is glued to its clause, and each later one is
      followed by a space. */
  lemma DecisionSample()
    ensures Decision(SampleProtocol) == "1.A 2. B"
  {
    SampleCaptured();
    SampleMerged();
    var merged := ["1.A", "2. B"];
    assert merged[1..] == ["2. B"];
    assert "1.A" + " " + "2. B" == "1.A 2. B";
    assert Join(merged, " ") == "1.A 2. B";
    StripTrimmed("1.A 2. B");
  }

  // -------------------------------------------------------------- enrichment

  /** The outcome of one page request. */
  datatype Fetch = NotLinked | FetchFailed | Fetched(text: string)

  /** What the documents of one item yield. `PageFailed`: the legal act page
      itself could not be fetched. Otherwise the legal act draft (tags and
      entities removed, whitespace collapsed), the annotation cleaned the same
      way together with the three section captures found in it, and the
      protocol decision page with every tag turned into a line break. */
  datatype ItemDocs =
    | PageFailed
    | Pages(legalAct: Fetch, annotation: Fetch, sections: SectionCaptures, protocol: Fetch)

  /** The essence and decision of one item. A failed legal act draft fetch is
      ignored; a failed page or annotation fetch ends the item's documents with
      both texts empty; a failed protocol fetch keeps the essence. */
  function Enrich(item: AgendaItem, docs: ItemDocs, hasModel: bool,
                  model: AiRequest -> Option<string>): (r: AgendaItem)
    ensures r.(essence := item.essence, decision := item.decision) == item
    ensures docs.PageFailed? || docs.annotation.FetchFailed? ==> r.essence == [] && r.decision == []
    ensures docs.Pages? && !docs.annotation.Fetched? ==> r.essence == []
    ensures docs.Pages? && !docs.protocol.Fetched? ==> r.decision == []
    ensures docs.Pages? && docs.annotation.Fetched? ==>
      r.essence == ExtractEssence(hasModel, docs.annotation.text,
                                  if docs.legalAct.Fetched? then docs.legalAct.text else [], docs.sections, model)
    ensures docs.Pages? && !docs.annotation.FetchFailed? && docs.protocol.Fetched? ==>
      r.decision == Decision(Lines(docs.protocol.text))
    ensures |r.decision| <= DecisionLimit
  {
    var blank := item.(essence := [], decision := []);
    match docs
    case PageFailed => blank
    case Pages(legalAct, annotation, sections, protocol) =>
      if annotation.FetchFailed? then blank
      else
        var legal := if legalAct.Fetched? then legalAct.text else [];
        var withEssence :=
          if annotation.Fetched? then blank.(essence := ExtractEssence(hasModel, annotation.text, legal, sections, model))
          else blank;
        if protocol.Fetched? then withEssence.(decision := Decision(Lines(protocol.text))) else withEssence
  }

  /** A legal act draft that could not be fetched counts as no draft at all. */
  lemma LegalActFailureIgnored(item: AgendaItem, annotation: Fetch, sections: SectionCaptures,
                               protocol: Fetch, hasModel: bool, model: AiRequest -> Option<string>)
    ensures Enrich(item, Pages(FetchFailed, annotation, sections, protocol), hasModel, model) ==
            Enrich(item, Pages(NotLinked, annotation, sections, protocol), hasModel, model)
  {
  }

  /** The protocol decision does not depend on the annotation, the draft or the
      model, unless the annotation fetch fails. */
  lemma DecisionIndependentOfEssence(item: AgendaItem, l1: Fetch, l2: Fetch, a1: Fetch, a2: Fetch,
                                     s1: SectionCaptures, s2: SectionCaptures, protocol: Fetch,
                                     hasModel: bool, model: AiRequest -> Option<string>)
    requires !a1.FetchFailed? && !a2.FetchFailed?
    ensures Enrich(item, Pages(l1, a1, s1, protocol), hasModel, model).decision ==
            Enrich(item, Pages(l2, a2, s2, protocol), false, model).decision
  {
  }

  /** `after` is `before` enriched with the documents of its legal act link. */
  predicate EnrichedFrom(after: AgendaItem, before: AgendaItem, docs: string -> ItemDocs, hasModel: bool,
                         model: AiRequest -> Option<string>)
  {
    after == Enrich(before, docs(before.taLink), hasModel, model)
  }

  /** The enrichment loop, in place on the selected items. */
  method EnrichItems(items: array<AgendaItem>, docs: string -> ItemDocs, hasModel: bool,
                     model: AiRequest -> Option<string>)
    modifies items
    ensures forall i :: 0 <= i < items.Length ==> EnrichedFrom(items[i], old(items[i]), docs, hasModel, model)
  {
    var i := 0;
    while i < items.Length
      invariant 0 <= i <= items.Length
      invariant forall k :: 0 <= k < i ==> EnrichedFrom(items[k], old(items[k]), docs, hasModel, model)
      invariant forall k :: i <= k < items.Length ==> items[k] == old(items[k])
    {
      var item := items[i];
      var enriched := EnrichOne(item, docs(item.taLink), hasModel, model);
      items[i] := enriched;
      i := i + 1;
    }
  }

  /** The body of the enrichment loop for one item. */
  method EnrichOne(item: AgendaItem, d: ItemDocs, hasModel: bool, model: AiRequest -> Option<string>)
    returns (r: AgendaItem)
    ensures r == Enrich(item, d, hasModel, model)
  {
    r := item.(essence := [], decision := []);
    match d {
      case PageFailed =>
      case Pages(legalAct, annotation, sections, protocol) =>
        if !annotation.FetchFailed? {
          var legal := [];
          if legalAct.Fetched? {
            legal := legalAct.text;
          }
          if annotation.Fetched? {
            r := r.(essence := ExtractEssence(hasModel, annotation.text, legal, sections, model));
          }
          if protocol.Fetched? {
            var decisionLines := CaptureDecisionLines(Lines(protocol.text));
            var merged := MergeMarkers(decisionLines);
            var decision := if merged == [] then [] else Take(Strip(Join(merged, " ")), DecisionLimit);
            r := r.(decision := decision);
          }
        }
    }
  }

  // --------------------------------------------------------------- the agenda

  /** The meetings list: unreachable, without a meeting link, or the first
      meeting's path with the date and time shown in its row (when found). */
  datatype MeetingsIndex = IndexFailed | NoMeeting | Meeting(path: string, date: Option<string>)

  /** The agenda page: its text, its section headings and its legal act links,
      in page order. */
  datatype AgendaPage = AgendaPage(html: string, sections: seq<Section>, links: seq<TaLink>)

  datatype CabinetResult = CabinetResult(
    meetingDate: string, meetingUrl: string, cudarsItems: seq<AgendaItem>, allSections: seq<string>)

  function AgendaItems(page: AgendaPage): seq<AgendaItem>
  {
    WithSections(Recognised(page.html, page.links), page.sections)
  }

  function EnrichAll(items: seq<AgendaItem>, docs: string -> ItemDocs, hasModel: bool,
                     model: AiRequest -> Option<string>): (r: seq<AgendaItem>)
    ensures |r| == |items|
  {
    seq(|items|, i requires 0 <= i < |items| => Enrich(items[i], docs(items[i].taLink), hasModel, model))
  }

  function SectionNames(sections: seq<Section>): (names: seq<string>)
    ensures |names| == |sections| && forall i :: 0 <= i < |sections| ==> names[i] == sections[i].name
  {
    seq(|sections|, i requires 0 <= i < |sections| => sections[i].name)
  }

  /** Steps 4 and 5: recognise the items, then assign their sections in place. */
  method SectionedItems(page: AgendaPage) returns (items: seq<AgendaItem>)
    ensures items == AgendaItems(page)
  {
    var found := CollectItems(page.html, page.links);
    var buffer := ToArray(found);
    AssignSections(buffer, page.sections);
    items := buffer[..];
  }

  /** Step 7: enrich the selected items in place. */
  method EnrichedItems(items: seq<AgendaItem>, docs: string -> ItemDocs, hasModel: bool,
                       model: AiRequest -> Option<string>) returns (enriched: seq<AgendaItem>)
    ensures enriched == EnrichAll(items, docs, hasModel, model)
  {
    var buffer := ToArray(items);
    EnrichItems(buffer, docs, hasModel, model);
    enriched := buffer[..];
    assert forall i :: 0 <= i < |items| ==> enriched[i] == Enrich(items[i], docs(items[i].taLink), hasModel, model);
  }

  /** Steps 4 to 7 on one agenda page: recognise the items, assign their
      sections, keep those reported by Čudars and enrich them. */
  method SelectItems(page: AgendaPage, docs: string -> ItemDocs, hasModel: bool,
                     model: AiRequest -> Option<string>) returns (selected: seq<AgendaItem>)
    ensures selected == EnrichAll(CudarsItems(AgendaItems(page)), docs, hasModel, model)
  {
    var items := SectionedItems(page);
    selected := EnrichedItems(CudarsItems(items), docs, hasModel, model);
  }

  /** The whole agenda scrape. `agendaAt` stands for fetching a meeting page
      (`None`: the request failed) and `docs` for fetching an item's documents. */
  method CabinetAgenda(index: MeetingsIndex, agendaAt: string -> Option<AgendaPage>,
                       docs: string -> ItemDocs, hasModel: bool, model: AiRequest -> Option<string>)
    returns (r: Option<CabinetResult>)
    ensures !index.Meeting? ==> r.None?
    ensures index.Meeting? ==> (r.None? <==> agendaAt(BaseUrl + index.path).None?)
    ensures r.Some? ==>
      var page := agendaAt(BaseUrl + index.path).value;
      && r.value.meetingDate == (if index.date.Some? then index.date.value else "Unknown date")
      && r.value.meetingUrl == BaseUrl + index.path
      && r.value.cudarsItems == EnrichAll(CudarsItems(AgendaItems(page)), docs, hasModel, model)
      && r.value.allSections == SectionNames(page.sections)
  {
    match index {
      case IndexFailed =>
        r := None;
      case NoMeeting =>
        r := None;
      case Meeting(path, date) =>
        var meetingUrl := BaseUrl + path;
        var meetingDate := if date.Some? then date.value else "Unknown date";
        var page := agendaAt(meetingUrl);
        if page.None? {
          r := None;
          return;
        }
        var selected := SelectItems(page.value, docs, hasModel, model);
        r := Some(CabinetResult(meetingDate, meetingUrl, selected, SectionNames(page.value.sections)));
    }
  }

  /** Every recognised item links into the legal acts portal. */
  lemma RecognisedLinksIntoPortal(html: string, links: seq<TaLink>)
    ensures forall i :: 0 <= i < |Recognised(html, links)| ==> BaseUrl <= Recognised(html, links)[i].taLink
  {
    var recognised := Recognised(html, links);
    forall i | 0 <= i < |recognised| ensures BaseUrl <= recognised[i].taLink {
      FilterMapMember((link: TaLink) => Recognise(html, link), links, recognised[i]);
    }
  }

  /** Every agenda item carries the section it falls under. */
  lemma AgendaItemsFacts(page: AgendaPage)
    ensures forall i :: 0 <= i < |AgendaItems(page)| ==>
      BaseUrl <= AgendaItems(page)[i].taLink &&
      AgendaItems(page)[i].section == SectionFor(page.sections, AgendaItems(page)[i].pos)
  {
    RecognisedLinksIntoPortal(page.html, page.links);
  }

  /** Enrichment changes only the essence and the decision of each item. */
  lemma EnrichAllKeeps(items: seq<AgendaItem>, docs: string -> ItemDocs, hasModel: bool,
                       model: AiRequest -> Option<string>)
    ensures var r := EnrichAll(items, docs, hasModel, model);
            forall i :: 0 <= i < |items| ==>
              && r[i].pos == items[i].pos && r[i].taLink == items[i].taLink && r[i].taId == items[i].taId
              && r[i].title == items[i].title && r[i].reporter == items[i].reporter
              && r[i].section == items[i].section && |r[i].decision| <= DecisionLimit
  {
    var r := EnrichAll(items, docs, hasModel, model);
    forall i | 0 <= i < |items|
      ensures r[i].pos == items[i].pos && r[i].taLink == items[i].taLink && r[i].taId == items[i].taId
      ensures r[i].title == items[i].title && r[i].reporter == items[i].reporter
      ensures r[i].section == items[i].section && |r[i].decision| <= DecisionLimit
    {
      var e := Enrich(items[i], docs(items[i].taLink), hasModel, model);
      assert r[i] == e;
      assert e.(essence := items[i].essence, decision := items[i].decision) == items[i];
    }
  }

  /** Every selected agenda item links into the portal and carries its section. */
  lemma CudarsItemsFacts(page: AgendaPage)
    ensures var chosen := CudarsItems(AgendaItems(page));
            forall i :: 0 <= i < |chosen| ==>
              && MentionsCudars(chosen[i].reporter) && BaseUrl <= chosen[i].taLink
              && chosen[i].section == SectionFor(page.sections, chosen[i].pos)
  {
    var agenda := AgendaItems(page);
    AgendaItemsFacts(page);
    var chosen := CudarsItems(agenda);
    forall i | 0 <= i < |chosen|
      ensures MentionsCudars(chosen[i].reporter) && BaseUrl <= chosen[i].taLink
      ensures chosen[i].section == SectionFor(page.sections, chosen[i].pos)
    {
      assert chosen[i] in agenda;
      var j :| 0 <= j < |agenda| && agenda[j] == chosen[i];
    }
  }

  /** Every reported item mentions Čudars as reporter, links into the legal acts
      portal, carries the section it falls under and a decision of at most 600
      characters. */
  lemma CabinetItemsFacts(page: AgendaPage, docs: string -> ItemDocs, hasModel: bool,
                          model: AiRequest -> Option<string>)
    ensures var items := EnrichAll(CudarsItems(AgendaItems(page)), docs, hasModel, model);
            forall i :: 0 <= i < |items| ==>
              && MentionsCudars(items[i].reporter)
              && BaseUrl <= items[i].taLink
              && items[i].section == SectionFor(page.sections, items[i].pos)
              && |items[i].decision| <= DecisionLimit
  {
    CudarsItemsFacts(page);
    EnrichAllKeeps(CudarsItems(AgendaItems(page)), docs, hasModel, model);
  }
}
