/**
 * `generate_srt_with_translation` of the video-processing service: a Whisper
 * transcription serialised as SubRip cues, each cue's text translated into the
 * target language when that is needed. The translator (GoogleTranslator) is a
 * parameter: `translate(code, text)` is the translation, or None when the call
 * raises.
 */
module Subtitles {
  import opened Wrappers
  import opened Text
  import opened Timestamps

  datatype Segment = Segment(start: real, end: real, text: string)

  /** The part of Whisper's result that the serialiser reads: the detected
      language (absent when Whisper did not report one) and the segments. */
  datatype Transcription = Transcription(language: Option<string>, segments: seq<Segment>)

  type Translator = (string, string) -> Option<string>

  /** The language-code table: every supported code maps to itself. */
  const LangMap: map<string, string> := map[
    "en" := "en", "es" := "es", "hi" := "hi", "fr" := "fr", "de" := "de", "it" := "it",
    "pt" := "pt", "ru" := "ru", "ja" := "ja", "ko" := "ko", "zh" := "zh", "ta" := "ta"]

  /** `lang_map.get(target_language, target_language)`: the lookup never changes
      the code it is given. */
  function LangCode(target: string): (code: string)
    ensures code == target
  {
    if target in LangMap then LangMap[target] else target
  }

  /** `result.get('language', 'en')` */
  function DetectedLanguage(t: Transcription): string {
    t.language.GetOr("en")
  }

  /** The text of one cue: the stripped original when the target is the detected
      language or English, or when translation raises; otherwise the translation
      into the target code. */
  function CueText(original: string, detected: string, target: string, translate: Translator): (r: string)
    ensures target == detected || target == "en" || translate(target, Strip(original)).None?
            ==> r == Strip(original)
    ensures target != detected && target != "en" && translate(target, Strip(original)).Some?
            ==> r == translate(target, Strip(original)).value
  {
    var text := Strip(original);
    if target == detected || target == "en" then text
    else
      match translate(LangCode(target), text)
      case Some(translated) => translated
      case None => text
  }

  /** `f"{i}\n{start_time} --> {end_time}\n{translated_text}\n\n"` */
  function Cue(i: nat, startTime: string, endTime: string, text: string): (c: string)
    ensures |c| > |DecimalString(i)| && c[..|DecimalString(i)|] == DecimalString(i)
    ensures c[|DecimalString(i)|] == '\n'
  {
    DecimalString(i) + "\n" + startTime + " --> " + endTime + "\n" + text + "\n\n"
  }

  /** The cue for a segment, numbered i. */
  function CueFor(i: nat, s: Segment, detected: string, target: string, translate: Translator): (c: string)
    ensures c != []
  {
    Cue(i, FormatTimestamp(s.start), FormatTimestamp(s.end), CueText(s.text, detected, target, translate))
  }

  /** The cues of a run of segments, in order, numbered from 1. */
  function Cues(segments: seq<Segment>, detected: string, target: string, translate: Translator): string {
    if segments == [] then ""
    else
      var n := |segments|;
      Cues(segments[..n - 1], detected, target, translate)
        + CueFor(n, segments[n - 1], detected, target, translate)
  }

  /** The SubRip document: one cue per segment, in order, numbered from 1. It is
      empty exactly when there are no segments (which makes `process_transcript`
      raise "SRT content generation failed"). */
  function SrtDocument(t: Transcription, target: string, translate: Translator): (r: string)
    ensures r == "" <==> t.segments == []
  {
    CuesLength(t.segments, DetectedLanguage(t), target, translate);
    Cues(t.segments, DetectedLanguage(t), target, translate)
  }

  /** `generate_srt_with_translation(result, target_language)` */
  method GenerateSrt(t: Transcription, target: string, translate: Translator) returns (srt: string)
    ensures srt == SrtDocument(t, target, translate)
  {
    var detected := DetectedLanguage(t);
    srt := "";
    var i := 0;
    while i < |t.segments|
      invariant 0 <= i <= |t.segments|
      invariant srt == Cues(t.segments[..i], detected, target, translate)
    {
      srt := AppendSegment(srt, i + 1, t.segments[i], detected, target, translate);
      CuesStep(t.segments, i, detected, target, translate);
      i := i + 1;
    }
    assert t.segments[..i] == t.segments;
  }

  /** One pass of the loop of `generate_srt_with_translation`: the segment's
      timestamps and text, appended as cue number i. */
  method AppendSegment(srt: string, i: nat, segment: Segment, detected: string, target: string,
                       translate: Translator)
    returns (r: string)
    ensures r == srt + CueFor(i, segment, detected, target, translate)
  {
    var startTime := FormatTimestamp(segment.start);
    var endTime := FormatTimestamp(segment.end);
    var translated := CueText(segment.text, detected, target, translate);
    r := srt + DecimalString(i) + "\n";
    r := r + startTime + " --> " + endTime + "\n";
    r := r + translated + "\n\n";
    AppendCue(srt, i, startTime, endTime, translated);
  }

  /** The three appends of the loop body add exactly one cue. */
  lemma AppendCue(srt: string, i: nat, startTime: string, endTime: string, text: string)
    ensures srt + DecimalString(i) + "\n" + startTime + " --> " + endTime + "\n" + text + "\n\n"
            == srt + Cue(i, startTime, endTime, text)
  {
  }

  /** Extending the run of segments by the next one appends that segment's cue. */
  lemma CuesStep(segments: seq<Segment>, i: nat, detected: string, target: string, translate: Translator)
    requires i < |segments|
    ensures Cues(segments[..i + 1], detected, target, translate)
            == Cues(segments[..i], detected, target, translate)
               + CueFor(i + 1, segments[i], detected, target, translate)
  {
    assert segments[..i + 1][..i] == segments[..i];
  }

  lemma {:induction false} CuesLength(segments: seq<Segment>, detected: string, target: string,
                                      translate: Translator)
    ensures |Cues(segments, detected, target, translate)| >= |segments|
    decreases |segments|
  {
    if segments != [] {
      CuesLength(segments[..|segments| - 1], detected, target, translate);
    }
  }

  /** One more segment adds exactly one cue at the end of the document, numbered
      one past the cues before it; the earlier cues are unchanged. */
  lemma SrtAppendSegment(t: Transcription, s: Segment, target: string, translate: Translator)
    ensures var t' := t.(segments := t.segments + [s]);
      SrtDocument(t', target, translate)
      == SrtDocument(t, target, translate)
         + Cue(|t.segments| + 1, FormatTimestamp(s.start), FormatTimestamp(s.end),
               CueText(s.text, DetectedLanguage(t), target, translate))
  {
    assert (t.segments + [s])[..|t.segments|] == t.segments;
  }
}
