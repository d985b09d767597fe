/** The "essence" of an annotation: a language-model summary for long texts when
    a model client is configured, otherwise (or when the call fails) the text of
    three numbered annotation sections found by regular expressions. */
module Essence {
  import opened Seqs
  import opened Text

  /** Longest `chunk[:500]` kept per section. */
  const ChunkLimit := 500
  /** Texts of at most this many characters never go to the model. */
  const AiMinLength := 200
  /** Prefixes of the annotation and of the legal act draft put into the prompt. */
  const AiAnnotationLimit := 2000
  const AiLegalActLimit := 1500

  /** The `group(1)` of each of the three section searches on the cleaned
      annotation ("1.1. Pamatojums … Apraksts", "1.2. Mērķis … Mērķa apraksts",
      "Risinājuma apraksts"), or `None` where a search finds nothing. */
  datatype SectionCaptures = SectionCaptures(
    justification: Option<string>,
    purpose: Option<string>,
    solution: Option<string>)

  /** One section's contribution: its capture with whitespace runs collapsed,
      stripped, kept only when non-empty and cut to 500 characters. */
  function SectionChunk(capture: Option<string>): (r: Option<string>)
    ensures r.None? <==> capture.None? || AllSpace(capture.value)
    ensures r.Some? ==> 0 < |r.value| <= ChunkLimit && !IsSpace(r.value[0])
    ensures r.Some? ==> r.value <= Strip(CollapseSpaces(capture.value))
    ensures r.Some? ==> var c := Strip(CollapseSpaces(capture.value));
                        |r.value| == if |c| <= ChunkLimit then |c| else ChunkLimit
  {
    match capture
    case None => None
    case Some(g) =>
      var c := Strip(CollapseSpaces(g));
      AllSpaceNonSpace(g);
      AllSpaceNonSpace(CollapseSpaces(g));
      if c == [] then None else Some(Take(c, ChunkLimit))
  }

  function Chunks(caps: SectionCaptures): seq<string>
  {
    FilterMap(SectionChunk, [caps.justification, caps.purpose, caps.solution])
  }

  /** The regular-expression fallback: the section chunks joined by " | " and
      stripped. */
  function RegexEssence(caps: SectionCaptures): string
  {
    Strip(Join(Chunks(caps), " | "))
  }

  /** The fallback is empty exactly when no section yields a non-blank chunk. */
  lemma RegexEssenceEmpty(caps: SectionCaptures)
    ensures RegexEssence(caps) == [] <==>
      SectionChunk(caps.justification).None? && SectionChunk(caps.purpose).None? &&
      SectionChunk(caps.solution).None?
  {
    var parts := Chunks(caps);
    ChunksInOrder(caps);
    if parts != [] {
      JoinStartsWithFirst(parts, " | ");
      var j := Join(parts, " | ");
      assert j[0] == parts[0][0];
      assert !AllSpace(j);
    }
  }

  /** The chunks are the justification's, the purpose's and the solution's, in
      that order, each where it is present. */
  lemma ChunksInOrder(caps: SectionCaptures)
    ensures Chunks(caps) ==
      Emit(SectionChunk(caps.justification)) + Emit(SectionChunk(caps.purpose)) + Emit(SectionChunk(caps.solution))
  {
    var a, b, c := caps.justification, caps.purpose, caps.solution;
    assert [a, b] + [c] == [a, b, c] && [a] + [b] == [a, b];
    FilterMapAppend(SectionChunk, [a, b], [c]);
    FilterMapAppend(SectionChunk, [a], [b]);
    FilterMapOne(SectionChunk, a);
    FilterMapOne(SectionChunk, b);
    FilterMapOne(SectionChunk, c);
  }

  /** At most three chunks of at most 500 characters and two separators. */
  lemma RegexEssenceBound(caps: SectionCaptures)
    ensures |RegexEssence(caps)| <= 3 * ChunkLimit + 2 * |" | "|
  {
    var ocs := [caps.justification, caps.purpose, caps.solution];
    var parts := Chunks(caps);
    FilterMapLength(SectionChunk, ocs);
    forall i | 0 <= i < |parts| ensures |parts[i]| <= ChunkLimit {
      FilterMapMember(SectionChunk, ocs, parts[i]);
    }
    if |parts| == 2 {
      assert Join(parts, " | ") == parts[0] + " | " + parts[1];
    } else if |parts| == 3 {
      assert Join(parts[1..], " | ") == parts[1] + " | " + parts[2];
    }
  }

  /** What the model is shown: the first 2000 characters of the annotation and,
      when a legal act draft text was found, its first 1500 characters. */
  datatype AiRequest = AiRequest(annotation: string, legalAct: Option<string>)

  function RequestFor(cleaned: string, legalAct: string): (q: AiRequest)
    ensures q.annotation <= cleaned && |q.annotation| <= AiAnnotationLimit
    ensures |q.annotation| == if |cleaned| <= AiAnnotationLimit then |cleaned| else AiAnnotationLimit
    ensures |cleaned| <= AiAnnotationLimit ==> q.annotation == cleaned
    ensures q.legalAct.None? <==> legalAct == []
    ensures q.legalAct.Some? ==> q.legalAct.value <= legalAct && |q.legalAct.value| <= AiLegalActLimit
    ensures q.legalAct.Some? ==>
      |q.legalAct.value| == if |legalAct| <= AiLegalActLimit then |legalAct| else AiLegalActLimit
  {
    AiRequest(Take(cleaned, AiAnnotationLimit),
              if legalAct == [] then None else Some(Take(legalAct, AiLegalActLimit)))
  }

  /** The hybrid extraction. `hasModel` says whether the model client library is
      available and an API key is set; `model` stands for the remote call, `None` being a call that
      raised. */
  function ExtractEssence(hasModel: bool, cleaned: string, legalAct: string,
                          caps: SectionCaptures, model: AiRequest -> Option<string>): (r: string)
    ensures !hasModel || |cleaned| <= AiMinLength ==> r == RegexEssence(caps)
    ensures model(RequestFor(cleaned, legalAct)).None? ==> r == RegexEssence(caps)
    ensures hasModel && |cleaned| > AiMinLength && model(RequestFor(cleaned, legalAct)).Some? ==>
      r == model(RequestFor(cleaned, legalAct)).value
  {
    if hasModel && |cleaned| > AiMinLength then
      match model(RequestFor(cleaned, legalAct))
      case Some(text) => text
      case None => RegexEssence(caps)
    else RegexEssence(caps)
  }

  /** The model sees nothing but the request: two model stand-ins that answer
      that request alike give the same essence. */
  lemma ModelSeesOnlyRequest(hasModel: bool, cleaned: string, legalAct: string,
                             caps: SectionCaptures, m1: AiRequest -> Option<string>,
                             m2: AiRequest -> Option<string>)
    requires m1(RequestFor(cleaned, legalAct)) == m2(RequestFor(cleaned, legalAct))
    ensures ExtractEssence(hasModel, cleaned, legalAct, caps, m1) ==
            ExtractEssence(hasModel, cleaned, legalAct, caps, m2)
  {
  }
}
