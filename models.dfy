/**
 * The records and enumerations the caption pipeline passes along: a transcript of timed words,
 * caption segments and the captions document, with the defaults and bounds the API validates.
 */
module Models {
  import opened Wrappers

  /** Visual style of a caption. */
  datatype CaptionStyle = Normal | Bold | Italic | Highlight

  /** Entrance animation of a caption. */
  datatype CaptionAnimation = NoAnimation | FadeIn | ScaleIn | WordByWord | Typewriter

  /** Vertical position on screen. */
  datatype CaptionPosition = Top | Center | Bottom

  /** The string each style is serialised as. */
  function StyleValue(s: CaptionStyle): string {
    match s
    case Normal => "normal"
    case Bold => "bold"
    case Italic => "italic"
    case Highlight => "highlight"
  }

  /** The string each animation is serialised as. */
  function AnimationValue(a: CaptionAnimation): string {
    match a
    case NoAnimation => "none"
    case FadeIn => "fade-in"
    case ScaleIn => "scale-in"
    case WordByWord => "word-by-word"
    case Typewriter => "typewriter"
  }

  /** The string each position is serialised as. */
  function PositionValue(p: CaptionPosition): string {
    match p
    case Top => "top"
    case Center => "center"
    case Bottom => "bottom"
  }

  /** `CaptionStyle(v)`: the style serialised as `v`; any other string is rejected. */
  function ParseStyle(v: string): (r: Option<CaptionStyle>)
    ensures forall s :: r == Some(s) <==> StyleValue(s) == v
  {
    if v == "normal" then Some(Normal)
    else if v == "bold" then Some(Bold)
    else if v == "italic" then Some(Italic)
    else if v == "highlight" then Some(Highlight)
    else None
  }

  /** `CaptionAnimation(v)`: the animation serialised as `v`; any other string is rejected. */
  function ParseAnimation(v: string): (r: Option<CaptionAnimation>)
    ensures forall a :: r == Some(a) <==> AnimationValue(a) == v
  {
    if v == "none" then Some(NoAnimation)
    else if v == "fade-in" then Some(FadeIn)
    else if v == "scale-in" then Some(ScaleIn)
    else if v == "word-by-word" then Some(WordByWord)
    else if v == "typewriter" then Some(Typewriter)
    else None
  }

  /** `CaptionPosition(v)`: the position serialised as `v`; any other string is rejected. */
  function ParsePosition(v: string): (r: Option<CaptionPosition>)
    ensures forall p :: r == Some(p) <==> PositionValue(p) == v
  {
    if v == "top" then Some(Top)
    else if v == "center" then Some(Center)
    else if v == "bottom" then Some(Bottom)
    else None
  }

  /** The animation form field of the processing endpoint: an unknown value falls back to scale-in. */
  function AnimationOrDefault(v: string): (a: CaptionAnimation)
    ensures AnimationValue(a) == v || (ParseAnimation(v) == None && a == ScaleIn)
  {
    match ParseAnimation(v)
    case Some(a) => a
    case None => ScaleIn
  }

  /** A single word from speech-to-text with timing in seconds. */
  datatype TranscriptWord = TranscriptWord(text: string, start: real, end: real, confidence: Option<real> := None)

  /** The bounds the API enforces on a transcript word. */
  predicate ValidTranscriptWord(w: TranscriptWord) {
    && w.start >= 0.0
    && w.end >= 0.0
    && (w.confidence.Some? ==> 0.0 <= w.confidence.value <= 1.0)
  }

  /** What constructing a transcript word reports when a bound is violated. */
  datatype ValidationError = NegativeTime(time: real) | ConfidenceOutOfRange(confidence: real)

  /** Constructing a validated transcript word: succeeds exactly when every bound holds. */
  function NewTranscriptWord(text: string, start: real, end: real, confidence: Option<real>): (r: Result<TranscriptWord, ValidationError>)
    ensures r.Success? <==> ValidTranscriptWord(TranscriptWord(text, start, end, confidence))
    ensures r.Success? ==> r.value == TranscriptWord(text, start, end, confidence)
  {
    if start < 0.0 then Failure(NegativeTime(start))
    else if end < 0.0 then Failure(NegativeTime(end))
    else if confidence.Some? && !(0.0 <= confidence.value <= 1.0) then Failure(ConfidenceOutOfRange(confidence.value))
    else Success(TranscriptWord(text, start, end, confidence))
  }

  /** A complete transcript with word-level timestamps. */
  datatype Transcript = Transcript(words: seq<TranscriptWord>, text: Option<string> := None, duration: real, language: string := "en")

  predicate ValidTranscript(t: Transcript) {
    && t.duration >= 0.0
    && forall k :: 0 <= k < |t.words| ==> ValidTranscriptWord(t.words[k])
  }

  /** A word within a caption segment. */
  datatype CaptionWord = CaptionWord(text: string, start: real, end: real)

  predicate ValidCaptionWord(w: CaptionWord) {
    w.start >= 0.0 && w.end >= 0.0
  }

  /** A single caption segment: a short timed phrase with its words. */
  datatype Caption = Caption(
    id: string,
    text: string,
    start: real,
    end: real,
    words: seq<CaptionWord>,
    emphasis: seq<string> := [],
    style: CaptionStyle := Normal,
    animation: CaptionAnimation := ScaleIn,
    position: CaptionPosition := Center)

  predicate ValidCaption(c: Caption) {
    && c.start >= 0.0
    && c.end >= 0.0
    && forall k :: 0 <= k < |c.words| ==> ValidCaptionWord(c.words[k])
  }

  /** Global caption settings. */
  datatype CaptionSettings = CaptionSettings(
    fontFamily: string := "Inter",
    fontSize: int := 48,
    fontWeight: int := 700,
    color: string := "#FFFFFF",
    backgroundColor: string := "transparent",
    emphasisScale: real := 1.2)

  /** A complete captions document. */
  datatype Captions = Captions(version: string := "1.0", captions: seq<Caption>, settings: Option<CaptionSettings> := None)

  /** The defaults a caption takes when only its timing and text are given. */
  lemma CaptionDefaults(id: string, text: string, start: real, end: real, words: seq<CaptionWord>)
    ensures var c := Caption(id, text, start, end, words);
      c.emphasis == [] && c.style == Normal && c.animation == ScaleIn && c.position == Center
  {
  }

  /** The defaults of the settings record and of the captions document. */
  lemma DocumentDefaults(captions: seq<Caption>)
    ensures CaptionSettings() == CaptionSettings("Inter", 48, 700, "#FFFFFF", "transparent", 1.2)
    ensures Captions(captions := captions) == Captions("1.0", captions, None)
    ensures Transcript([], duration := 0.0).language == "en"
  {
  }
}
