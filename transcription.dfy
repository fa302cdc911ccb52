/**
 * Post-processing of a Whisper result into a transcript, and the service's model-name state.
 * The result of the speech model is a parameter: a structure of segments whose words carry
 * optional fields, standing for the dictionary keys that may be missing.
 */
module Transcription {
  import opened Wrappers
  import opened Seqs
  import opened Text
  import opened Models

  /** The speech model used when no name (or an empty name) is given. */
  const DEFAULT_MODEL: string := "base"

  /** The speech models the service may switch between. */
  const AVAILABLE_MODELS: seq<string> := ["tiny", "base", "small", "medium", "large"]

  /** The language reported when neither the result nor the caller names one. */
  const DEFAULT_LANGUAGE: string := "en"

  /** One recognised word of the result; a missing key is `None`. */
  datatype WordData = WordData(
    word: Option<string> := None,
    start: Option<real> := None,
    end: Option<real> := None,
    probability: Option<real> := None)

  /** One segment of the result. */
  datatype SegmentData = SegmentData(words: Option<seq<WordData>> := None, end: Option<real> := None)

  /** The dictionary the speech model returns. */
  datatype WhisperResult = WhisperResult(
    segments: Option<seq<SegmentData>> := None,
    text: Option<string> := None,
    language: Option<string> := None)

  /** Why transcription failed. */
  datatype TranscriptionError =
    | AudioNotFound
    | InvalidWord(error: ValidationError)
    | NegativeDuration(duration: real)
    | ModelFailed(message: string)

  /** Why a model change was refused. */
  datatype ModelError = InvalidModel(name: string, available: seq<string>)

  /** The handle of a speech model loaded by name. */
  datatype LoadedModel = LoadedModel(name: string)

  // ---------------------------------------------------------------------------------------
  // Words
  // ---------------------------------------------------------------------------------------

  /** The record built from one recognised word: stripped text, missing times as 0.0. */
  function RawWord(wd: WordData): TranscriptWord {
    TranscriptWord(Strip(wd.word.GetOr("")), wd.start.GetOr(0.0), wd.end.GetOr(0.0), wd.probability)
  }

  /** Validating that record, which fails on a negative time or an out-of-range confidence. */
  function MakeWord(wd: WordData): (r: Result<TranscriptWord, ValidationError>)
    ensures r.Success? <==> ValidTranscriptWord(RawWord(wd))
    ensures r.Success? ==> r.value == RawWord(wd)
  {
    var raw := RawWord(wd);
    NewTranscriptWord(raw.text, raw.start, raw.end, raw.confidence)
  }

  /** The words of every segment, in segment order; a segment without a word list has none. */
  function SegmentWords(segments: seq<SegmentData>): (r: seq<seq<WordData>>)
    ensures |r| == |segments|
  {
    seq(|segments|, s requires 0 <= s < |segments| => segments[s].words.GetOr([]))
  }

  /** All recognised words of a result, in segment order and then in order within a segment. */
  function AllWordData(result: WhisperResult): seq<WordData> {
    Flatten(SegmentWords(result.segments.GetOr([])))
  }

  /** Building the words one after another: the first invalid one fails, empty ones are dropped. */
  function Collect(wds: seq<WordData>): Result<seq<TranscriptWord>, ValidationError> {
    if wds == [] then Success([])
    else
      match Collect(wds[..|wds| - 1])
      case Failure(e) => Failure(e)
      case Success(acc) =>
        match MakeWord(Last(wds))
        case Failure(e) => Failure(e)
        case Success(w) => Success(if w.text != [] then acc + [w] else acc)
  }

  /** The words kept from a result. */
  function ExtractSpec(result: WhisperResult): Result<seq<TranscriptWord>, ValidationError> {
    Collect(AllWordData(result))
  }

  // Reference definitions: the records, their validity and the non-empty ones.

  function RawWords(wds: seq<WordData>): (r: seq<TranscriptWord>)
    ensures |r| == |wds|
  {
    seq(|wds|, k requires 0 <= k < |wds| => RawWord(wds[k]))
  }

  predicate AllValid(wds: seq<WordData>) {
    forall k :: 0 <= k < |wds| ==> ValidTranscriptWord(RawWord(wds[k]))
  }

  /** The words with non-empty text, in order. */
  function KeepNonEmpty(ws: seq<TranscriptWord>): (r: seq<TranscriptWord>)
    ensures |r| <= |ws|
  {
    if ws == [] then []
    else KeepNonEmpty(ws[..|ws| - 1]) + if Last(ws).text != [] then [Last(ws)] else []
  }

  lemma {:induction false} KeepNonEmptyAppend(a: seq<TranscriptWord>, b: seq<TranscriptWord>)
    ensures KeepNonEmpty(a + b) == KeepNonEmpty(a) + KeepNonEmpty(b)
    decreases |b|
  {
    if b == [] {
      assert a + b == a;
    } else {
      var b' := b[..|b| - 1];
      assert (a + b)[..|a + b| - 1] == a + b';
      KeepNonEmptyAppend(a, b');
    }
  }

  /** The kept words are exactly the words with non-empty text, each one from the input. */
  lemma {:induction false} KeepNonEmptyMembers(ws: seq<TranscriptWord>)
    ensures forall w :: w in KeepNonEmpty(ws) <==> w in ws && w.text != []
  {
    if ws != [] {
      var init := ws[..|ws| - 1];
      KeepNonEmptyMembers(init);
      assert ws == init + [Last(ws)];
    }
  }

  lemma RawWordsSnoc(wds: seq<WordData>)
    requires wds != []
    ensures RawWords(wds[..|wds| - 1]) == RawWords(wds)[..|wds| - 1]
    ensures Last(RawWords(wds)) == RawWord(Last(wds))
  {
  }

  lemma AllValidSnoc(wds: seq<WordData>)
    requires wds != []
    ensures AllValid(wds) <==> AllValid(wds[..|wds| - 1]) && ValidTranscriptWord(RawWord(Last(wds)))
  {
    var n := |wds| - 1;
    if AllValid(wds[..n]) && ValidTranscriptWord(RawWord(wds[n])) {
      forall k | 0 <= k < |wds| ensures ValidTranscriptWord(RawWord(wds[k])) {
        if k < n {
          assert wds[..n][k] == wds[k];
        }
      }
    }
  }

  /** Collecting succeeds exactly when every record is within bounds. */
  lemma {:induction false} CollectSucceeds(wds: seq<WordData>)
    ensures Collect(wds).Success? <==> AllValid(wds)
  {
    if wds != [] {
      CollectSucceeds(wds[..|wds| - 1]);
      AllValidSnoc(wds);
    }
  }

  /** A successful collection keeps the records with non-empty text, in order. */
  lemma {:induction false} CollectKeeps(wds: seq<WordData>)
    requires Collect(wds).Success?
    ensures Collect(wds).value == KeepNonEmpty(RawWords(wds))
  {
    if wds != [] {
      CollectKeeps(wds[..|wds| - 1]);
      RawWordsSnoc(wds);
    }
  }

  /** A failed collection reports the error of the first invalid word. */
  lemma {:induction false} CollectFirstError(wds: seq<WordData>)
    requires Collect(wds).Failure?
    ensures exists k :: 0 <= k < |wds| && AllValid(wds[..k]) && MakeWord(wds[k]) == Failure(Collect(wds).error)
  {
    var n := |wds| - 1;
    var init := wds[..n];
    if Collect(init).Failure? {
      CollectFirstError(init);
      var k :| 0 <= k < |init| && AllValid(init[..k]) && MakeWord(init[k]) == Failure(Collect(init).error);
      assert init[..k] == wds[..k];
    } else {
      CollectSucceeds(init);
    }
  }

  /** Once a prefix fails, collecting more words reports the same error. */
  lemma {:induction false} CollectFailureStable(a: seq<WordData>, b: seq<WordData>)
    requires Collect(a).Failure?
    ensures Collect(a + b) == Collect(a)
    decreases |b|
  {
    if b == [] {
      assert a + b == a;
    } else {
      var b' := b[..|b| - 1];
      assert (a + b)[..|a + b| - 1] == a + b';
      CollectFailureStable(a, b');
    }
  }

  /** Collecting one more word. */
  lemma CollectSnoc(a: seq<WordData>, wd: WordData)
    ensures Collect(a + [wd]) ==
      match Collect(a)
      case Failure(e) => Failure(e)
      case Success(acc) =>
        match MakeWord(wd)
        case Failure(e) => Failure(e)
        case Success(w) => Success(if w.text != [] then acc + [w] else acc)
  {
    assert (a + [wd])[..|a|] == a;
  }

  /**
   * The extracted words: in segment order and then in order within each segment, each with
   * stripped non-empty text, no more than the result has words, and all within bounds.
   */
  lemma ExtractSpecProperties(result: WhisperResult)
    requires ExtractSpec(result).Success?
    ensures var ws := ExtractSpec(result).value;
      && ws == KeepNonEmpty(RawWords(AllWordData(result)))
      && ws == Flatten(KeptBySegment(SegmentWords(result.segments.GetOr([]))))
      && |ws| <= |AllWordData(result)|
      && (forall k :: 0 <= k < |ws| ==> ws[k].text != [] && Strip(ws[k].text) == ws[k].text)
      && (forall k :: 0 <= k < |ws| ==> ValidTranscriptWord(ws[k]))
  {
    var all := AllWordData(result);
    var ws := ExtractSpec(result).value;
    CollectKeeps(all);
    CollectSucceeds(all);
    KeepNonEmptyBySegment(SegmentWords(result.segments.GetOr([])));
    KeepNonEmptyMembers(RawWords(all));
    forall k | 0 <= k < |ws|
      ensures ws[k].text != [] && Strip(ws[k].text) == ws[k].text && ValidTranscriptWord(ws[k])
    {
      assert ws[k] in RawWords(all);
      var j :| 0 <= j < |all| && RawWords(all)[j] == ws[k];
      StripIdempotent(all[j].word.GetOr(""));
    }
  }

  /** The kept words of each segment, in segment order. */
  function KeptBySegment(parts: seq<seq<WordData>>): (r: seq<seq<TranscriptWord>>)
    ensures |r| == |parts|
  {
    if parts == [] then [] else [KeepNonEmpty(RawWords(parts[0]))] + KeptBySegment(parts[1..])
  }

  lemma RawWordsAppend(a: seq<WordData>, b: seq<WordData>)
    ensures RawWords(a + b) == RawWords(a) + RawWords(b)
  {
  }

  /** The kept words of the whole result are the kept words of each segment, one after another. */
  lemma {:induction false} KeepNonEmptyBySegment(parts: seq<seq<WordData>>)
    ensures KeepNonEmpty(RawWords(Flatten(parts))) == Flatten(KeptBySegment(parts))
  {
    if parts != [] {
      KeepNonEmptyBySegment(parts[1..]);
      RawWordsAppend(parts[0], Flatten(parts[1..]));
      KeepNonEmptyAppend(RawWords(parts[0]), RawWords(Flatten(parts[1..])));
    }
  }

  /** When a word is invalid the whole extraction fails, with the error of the first one. */
  lemma ExtractSpecFailure(result: WhisperResult)
    ensures ExtractSpec(result).Failure? <==> !AllValid(AllWordData(result))
    ensures ExtractSpec(result).Failure? ==>
      var all := AllWordData(result);
      exists k :: 0 <= k < |all| && AllValid(all[..k]) && MakeWord(all[k]) == Failure(ExtractSpec(result).error)
  {
    CollectSucceeds(AllWordData(result));
    if ExtractSpec(result).Failure? {
      CollectFirstError(AllWordData(result));
    }
  }

  // ---------------------------------------------------------------------------------------
  // Duration, models and the transcript
  // ---------------------------------------------------------------------------------------

  /** The duration of a result: the end of its last segment, 0.0 when that is unknown. */
  function GetDuration(result: WhisperResult): (d: real)
    ensures result.segments.GetOr([]) == [] ==> d == 0.0
    ensures result.segments.GetOr([]) != [] ==> d == Last(result.segments.value).end.GetOr(0.0)
  {
    var segments := result.segments.GetOr([]);
    if segments == [] then 0.0 else Last(segments).end.GetOr(0.0)
  }

  /** The models the service offers. */
  function AvailableModels(): (r: seq<string>)
    ensures r == ["tiny", "base", "small", "medium", "large"]
    ensures DEFAULT_MODEL in r
  {
    AVAILABLE_MODELS
  }

  /** The language of the transcript: the result's, else the caller's hint, else English. */
  function TranscriptLanguage(result: WhisperResult, hint: Option<string>): (lang: string)
    ensures result.language.Some? ==> lang == result.language.value
    ensures result.language == None && hint.Some? && hint.value != [] ==> lang == hint.value
    ensures result.language == None && (hint == None || hint.value == []) ==> lang == DEFAULT_LANGUAGE
  {
    result.language.GetOr(OrDefault(hint, DEFAULT_LANGUAGE))
  }

  /** The transcript assembled from a result, or why its validation fails. */
  function BuildTranscript(result: WhisperResult, hint: Option<string>): Result<Transcript, TranscriptionError> {
    match ExtractSpec(result)
    case Failure(e) => Failure(InvalidWord(e))
    case Success(words) =>
      var duration := GetDuration(result);
      if duration < 0.0 then Failure(NegativeDuration(duration))
      else Success(Transcript(
        words := words,
        text := Some(Strip(result.text.GetOr(""))),
        duration := duration,
        language := TranscriptLanguage(result, hint)))
  }

  /**
   * Assembly succeeds exactly when every word is within bounds and the duration is not
   * negative; the transcript then is valid, holds the extracted words and the stripped text.
   */
  lemma BuildTranscriptMeaning(result: WhisperResult, hint: Option<string>)
    ensures var r := BuildTranscript(result, hint);
      && (r.Success? <==> AllValid(AllWordData(result)) && GetDuration(result) >= 0.0)
      && (r.Success? ==>
            && ValidTranscript(r.value)
            && Success(r.value.words) == ExtractSpec(result)
            && r.value.text == Some(Strip(result.text.GetOr("")))
            && r.value.duration == GetDuration(result)
            && r.value.language == TranscriptLanguage(result, hint))
      && (!AllValid(AllWordData(result)) ==>
            ExtractSpec(result).Failure? && r == Failure(InvalidWord(ExtractSpec(result).error)))
  {
    ExtractSpecFailure(result);
    if ExtractSpec(result).Success? {
      ExtractSpecProperties(result);
    }
  }

  // ---------------------------------------------------------------------------------------
  // The service
  // ---------------------------------------------------------------------------------------

  class WhisperService {
    var modelName: string
    var model: Option<LoadedModel>

    /** A cached model is always the one named by `modelName`. */
    predicate Valid()
      reads this
    {
      model.Some? ==> model.value.name == modelName
    }

    constructor (name: Option<string> := None)
      ensures modelName == OrDefault(name, DEFAULT_MODEL)
      ensures model == None
      ensures Valid()
    {
      modelName := OrDefault(name, DEFAULT_MODEL);
      model := None;
    }

    /** The speech model, loaded by name on first use and cached afterwards. */
    method Model() returns (m: LoadedModel)
      requires Valid()
      modifies this
      ensures m == LoadedModel(modelName) && model == Some(m)
      ensures modelName == old(modelName)
      ensures old(model).Some? ==> model == old(model)
      ensures Valid()
    {
      if model == None {
        model := Some(LoadedModel(modelName));
      }
      m := model.value;
    }

    /** The words of a result, converted and validated one by one, empty ones dropped. */
    method ExtractWords(result: WhisperResult) returns (r: Result<seq<TranscriptWord>, ValidationError>)
      ensures r == ExtractSpec(result)
    {
      var words: seq<TranscriptWord> := [];
      var segments := result.segments.GetOr([]);
      ghost var parts := SegmentWords(segments);
      for s := 0 to |segments|
        invariant Collect(Flatten(parts[..s])) == Success(words)
      {
        var segmentWords := segments[s].words.GetOr([]);
        ghost var done := Flatten(parts[..s]);
        assert done + segmentWords[..0] == done;
        for j := 0 to |segmentWords|
          invariant Collect(done + segmentWords[..j]) == Success(words)
        {
          var wordData := segmentWords[j];
          var word := MakeWord(wordData);
          CollectPrefixStep(done, segmentWords, j, words);
          if word.Failure? {
            ExtractFailureAt(parts, s, j);
            return Failure(word.error);
          }
          if word.value.text != [] {
            words := words + [word.value];
          }
        }
        FlattenPrefixStep(parts, s);
      }
      assert parts[..|segments|] == parts;
      r := Success(words);
    }

    /** The offered model names. */
    method GetAvailableModels() returns (models: seq<string>)
      ensures models == AvailableModels()
    {
      models := ["tiny", "base", "small", "medium", "large"];
    }

    /**
     * Switch to another model: an unknown name is refused and nothing changes; a new name is
     * taken and the cached model dropped; the current name changes nothing.
     */
    method ChangeModel(name: string) returns (r: Outcome<ModelError>)
      modifies this
      ensures name !in AvailableModels() ==>
        r == Fail(InvalidModel(name, AvailableModels())) && modelName == old(modelName) && model == old(model)
      ensures name in AvailableModels() && name != old(modelName) ==>
        r == Pass && modelName == name && model == None
      ensures name in AvailableModels() ==> r == Pass
      ensures name == old(modelName) ==>
        modelName == old(modelName) && model == old(model)
      ensures old(Valid()) ==> Valid()
    {
      var available := GetAvailableModels();
      if name !in available {
        return Fail(InvalidModel(name, available));
      }
      if name != modelName {
        modelName := name;
        model := None;
      }
      r := Pass;
    }

    /**
     * Transcribe an audio file: fail when it does not exist; otherwise run the cached (or
     * newly loaded) model through `run`, fail with its message when it fails, and assemble
     * the transcript from its result.
     */
    method Transcribe(audioExists: bool, run: (LoadedModel, Option<string>) -> Result<WhisperResult, string>, language: Option<string> := None)
      returns (r: Result<Transcript, TranscriptionError>)
      requires Valid()
      modifies this
      ensures !audioExists ==> r == Failure(AudioNotFound) && model == old(model)
      ensures audioExists ==> var outcome := run(LoadedModel(old(modelName)), language);
        r == if outcome.Failure? then Failure(ModelFailed(outcome.error)) else BuildTranscript(outcome.value, language)
      ensures audioExists ==> model == Some(LoadedModel(modelName))
      ensures modelName == old(modelName) && Valid()
    {
      if !audioExists {
        return Failure(AudioNotFound);
      }
      var m := Model();
      var outcome := run(m, language);
      if outcome.Failure? {
        return Failure(ModelFailed(outcome.error));
      }
      var result := outcome.value;
      var extracted := ExtractWords(result);
      if extracted.Failure? {
        return Failure(InvalidWord(extracted.error));
      }
      var duration := GetDuration(result);
      if duration < 0.0 {
        return Failure(NegativeDuration(duration));
      }
      r := Success(Transcript(
        words := extracted.value,
        text := Some(Strip(result.text.GetOr(""))),
        duration := duration,
        language := result.language.GetOr(OrDefault(language, DEFAULT_LANGUAGE))));
    }
  }

  /** One more word of the current segment. */
  lemma CollectPrefixStep(done: seq<WordData>, segment: seq<WordData>, j: nat, acc: seq<TranscriptWord>)
    requires j < |segment| && Collect(done + segment[..j]) == Success(acc)
    ensures MakeWord(segment[j]).Failure? ==> Collect(done + segment[..j + 1]) == Failure(MakeWord(segment[j]).error)
    ensures MakeWord(segment[j]).Success? ==>
      var w := MakeWord(segment[j]).value;
      Collect(done + segment[..j + 1]) == Success(if w.text != [] then acc + [w] else acc)
  {
    assert done + segment[..j + 1] == done + segment[..j] + [segment[j]];
    CollectSnoc(done + segment[..j], segment[j]);
  }

  /** One more segment. */
  lemma FlattenPrefixStep(parts: seq<seq<WordData>>, s: nat)
    requires s < |parts|
    ensures Flatten(parts[..s + 1]) == Flatten(parts[..s]) + parts[s][..|parts[s]|]
  {
    assert parts[s][..|parts[s]|] == parts[s];
    assert parts[..s + 1] == parts[..s] + [parts[s]];
    FlattenSnoc(parts[..s], parts[s]);
  }

  /** A word that fails inside segment `s` at position `j` fails the whole extraction. */
  lemma ExtractFailureAt(parts: seq<seq<WordData>>, s: nat, j: nat)
    requires s < |parts| && j < |parts[s]|
    requires Collect(Flatten(parts[..s]) + parts[s][..j + 1]).Failure?
    ensures Collect(Flatten(parts)) == Collect(Flatten(parts[..s]) + parts[s][..j + 1])
  {
    var a := Flatten(parts[..s]) + parts[s][..j + 1];
    var rest := parts[s][j + 1..] + Flatten(parts[s + 1..]);
    assert parts == parts[..s] + [parts[s]] + parts[s + 1..];
    FlattenAppend(parts[..s] + [parts[s]], parts[s + 1..]);
    FlattenSnoc(parts[..s], parts[s]);
    assert parts[s] == parts[s][..j + 1] + parts[s][j + 1..];
    assert Flatten(parts) == a + rest;
    CollectFailureStable(a, rest);
  }
}
