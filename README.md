# Caption pipeline of the API backend, in Dafny

This project models the Python API backend's path from a speech-to-text result to a styled
captions document, and proves properties of that model.

- **Transcription post-processing** (`Transcription`, `transcription.dfy`).
  - `WhisperService` turns the speech model's result into a `Transcript`. It flattens the
    segments' words, strips each word's text and drops empty words. Missing times default
    to 0.0.
  - It takes the duration from the last segment. It picks the language from the result,
    then the caller's hint, then "en".
  - It validates the words and the duration the way the record types do.
  - The class keeps the model name and the cached model. `ChangeModel` validates the new
    name against the five offered models.
- **Segmentation** (`Segmentation`, `segmentation.dfy`).
  - `CaptionSegmenter` cuts a transcript's words into phrases. A new phrase starts after a
    pause longer than 0.5 s, at the word limit, or after a word ending in sentence
    punctuation.
  - A second pass merges a too-short phrase into its successor.
  - Each phrase becomes a `Caption` with the words joined by spaces. The caption's timing
    runs from its first word to its last.
  - The caption's id is `caption_<index>_` followed by an opaque suffix.
- **Stylization** (`Stylization`, `stylization.dfy`).
  - `CaptionStylizer` picks at most two emphasis words from part-of-speech matches. When
    nothing matches, it falls back to the last word without trailing punctuation.
  - It cycles the animation through scale-in, fade-in and word-by-word by caption index.
  - It chooses a style by a precedence chain of text rules.
  - Named themes, with a default fallback, set the document settings.
- **Records** (`Models`, `models.dfy`). These are the enumerations and records the stages
  pass along, with their defaults and the bounds validation enforces.

`Text` (`text.dfy`) models the few `str` operations the code relies on: `strip`, `rstrip`
with characters, `endswith`, ASCII `lower`, `join` and `str(int)`. The code never splits a
string or searches it. `SplitOn` is there only so that the `join` round trip can be
stated, and `FindChar` only so that the injectivity of caption ids can be proved. `Seqs` holds
list concatenation. `Wrappers` holds `Option` and `Result`.

How the model maps Python onto Dafny:

- The Python loops are methods with loop invariants. Each method is proved equal to
  a recursive function, and the lemmas state what that function means.
  - `GroupIntoPhrases` and `MergeShortPhrases` are proved against `Split` and `MergeShort`.
  - `FindEmphasisWords` is proved against `EmphasisWords`.
  - `ExtractWords` is proved against `ExtractSpec`.
- Objects whose fields change are classes. These are the segmenter's word limit, which the
  processing endpoint resets before each use, and the speech service's model name and
  cached model.
- Foreign calls are parameters: the part-of-speech tagger, the speech model's
  transcription and the random part of caption ids.
- A Python exception raised by validation is a `Failure` of a `Result`. The one raised by
  `change_model` is a `Fail` outcome.

## Model

| member | source | states |
|---|---|---|
| Models.ParseStyle | apps/api/src/models.py:11-17 | a string parses to a style exactly when it is that style's value; any other string is rejected |
| Models.ParseAnimation | apps/api/src/models.py:20-27 | a string parses to an animation exactly when it is one of the five values "none", "fade-in", "scale-in", "word-by-word", "typewriter" |
| Models.ParsePosition | apps/api/src/models.py:30-35 | a string parses to a position exactly when it is "top", "center" or "bottom" |
| Models.AnimationOrDefault | apps/api/src/main.py:229-232 | the result is the animation with that value, or scale-in when parsing rejects the string |
| Models.NewTranscriptWord | apps/api/src/models.py:38-46 | construction succeeds exactly when start and end are at least 0 and a present confidence is in [0, 1], and then yields the given record |
| Models.CaptionDefaults | apps/api/src/models.py:68-83 | a caption given only id, text, timing and words has no emphasis, style normal, animation scale-in, position center |
| Models.DocumentDefaults | apps/api/src/models.py:86-106 | settings default to Inter/48/700/"#FFFFFF"/"transparent"/1.2; a document defaults to version "1.0" with no settings |
| Text.OrDefault | apps/api/src/transcription/whisper_service.py:27 | Python's `value or fallback`: a present non-empty value is kept, a missing or empty one gives the fallback |
| Text.StripBounds | apps/api/src/captions/segmenter.py:205 | `strip()` leaves no whitespace at either end, and leaves nothing exactly when the text is all whitespace |
| Text.StripIdempotent | apps/api/src/transcription/whisper_service.py:111 | stripping twice is stripping once |
| Text.StripPadding | apps/api/src/captions/segmenter.py:205 | whitespace around a text does not change its stripped form |
| Text.RStripChars | apps/api/src/captions/stylizer.py:166 | the result is a prefix that does not end in a removed character, and everything cut off was a removed character |
| Text.SplitJoin | apps/api/src/captions/segmenter.py:235 | words without spaces joined by single spaces split back into the same words |
| Text.NatToStringInjective | apps/api/src/captions/segmenter.py:242 | different indices have different decimal forms |
| Segmentation.EndsWithPunctuationLastChar | apps/api/src/captions/segmenter.py:196-206 | a text ends a sentence exactly when its stripped form is non-empty and ends with '.', '!' or '?'; the "..." suffix adds nothing |
| Segmentation.EndsWithPunctuationIgnoresPadding | apps/api/src/captions/segmenter.py:205-206 | surrounding whitespace does not change whether a text ends a sentence |
| Segmentation.Split | apps/api/src/captions/segmenter.py:120-153 | the first pass yields non-empty phrases, and none exactly for no words |
| Segmentation.SplitStep | apps/api/src/captions/segmenter.py:126-149 | one loop step either closes the open phrase and opens one with the new word, or appends the word, as the break decision says |
| Segmentation.SplitFlatten | apps/api/src/captions/segmenter.py:123-153 | concatenating the first pass's phrases gives the input words, in order |
| Segmentation.SplitIsBreakPartition | apps/api/src/captions/segmenter.py:130-147 | the first pass breaks before a word exactly when the gap exceeds 0.5, the open phrase has reached the word limit, or the previous word ends a sentence |
| Segmentation.BreakPartitionUnique | apps/api/src/captions/segmenter.py:130-147 | only one partition of a word list breaks exactly where a break is due, so the break rule determines the first pass |
| Segmentation.SplitBound | apps/api/src/captions/segmenter.py:138-139 | no first-pass phrase has more than max(max_words, 1) words |
| Segmentation.MergeShortPreserves | apps/api/src/captions/segmenter.py:172-194 | lists of at most one phrase are returned unchanged; otherwise each output phrase is one input phrase or a short phrase joined with its successor within max_words + 1 words; words, order and non-emptiness are kept and the count does not grow |
| Segmentation.JoinsNeighboursPreserve | apps/api/src/captions/segmenter.py:182-192 | joining neighbours keeps the concatenation, never adds phrases and keeps phrases non-empty |
| Segmentation.Phrases | apps/api/src/captions/segmenter.py:120-158 | both passes together partition the words into non-empty phrases, in order, each of one word or at most max_words + 1 words |
| Segmentation.CreateCaptionText | apps/api/src/captions/segmenter.py:235 | when no word contains a space, the caption text splits back into the phrase's words |
| Segmentation.CreateCaptionWords | apps/api/src/captions/segmenter.py:225-251 | for any words: one caption word per word with equal text and timing; start of the first word, end of the last; id beginning "caption_<index>_"; no emphasis, style normal, position center, the given animation |
| Segmentation.CaptionIdInjective | apps/api/src/captions/segmenter.py:242 | ids of captions with different indices differ whatever their random suffixes |
| Segmentation.CaptionSpansWords | apps/api/src/captions/segmenter.py:237-239 | for words in time order the caption's interval covers each of its words |
| Segmentation.CreateCaptionValid | apps/api/src/captions/segmenter.py:238-246 | captions of words within bounds are within bounds |
| Segmentation.SplitNoBreakInside | apps/api/src/captions/segmenter.py:126-149 | within a first-pass phrase no break is due before any word |
| Segmentation.SplitBreakBetween | apps/api/src/captions/segmenter.py:145-147 | between consecutive first-pass phrases a break is due |
| Segmentation.MergeRunJoinsNeighbours | apps/api/src/captions/segmenter.py:175-192 | the merge loop obeys the joining rule: reading from the front, a short phrase is joined with its successor exactly when the two fit in max_words + 1 words, and every other phrase is kept as it is |
| Segmentation.JoinsNeighboursDetermined | apps/api/src/captions/segmenter.py:178-192 | the joining rule admits only one output, the merge loop's |
| Segmentation.CreateCaptionUsesRecordDefaults | apps/api/src/captions/segmenter.py:241-251 | with the default animation the caption is the plain record with all its defaults |
| Segmentation.CaptionsValid | apps/api/src/captions/segmenter.py:91-97 | valid transcript words give valid captions |
| Segmentation.CaptionSegmenter.constructor | apps/api/src/captions/segmenter.py:33-49 | the tagger name is the given non-empty name or "en_core_web_sm"; the word limits are those given, by default 4 and 2 |
| Segmentation.CaptionSegmenter.GroupIntoPhrases | apps/api/src/captions/segmenter.py:102-158 | the loop computes the first pass followed by the merge pass |
| Segmentation.CaptionSegmenter.MergeShortPhrases | apps/api/src/captions/segmenter.py:160-194 | the loop computes the merge pass |
| Segmentation.CaptionSegmenter.Segment | apps/api/src/captions/segmenter.py:67-100 | no words give no captions; one caption per phrase, in phrase order, made with its position as index; the captions' words are the transcript's words; ids pairwise distinct; valid words give valid captions |
| Segmentation.CaptionsCoverWords | apps/api/src/captions/segmenter.py:90-97 | the captions' words, one caption after another, are the transcript's words |
| Segmentation.CaptionIdsDistinct | apps/api/src/captions/segmenter.py:91-97 | no two captions of one segmentation share an id |
| Stylization.SelectAnimationCycle | apps/api/src/captions/stylizer.py:24-28 | the animation at index i is scale-in, fade-in, word-by-word for i mod 3 = 0, 1, 2, and repeats with period 3 |
| Stylization.SelectAnimationNeighboursDiffer | apps/api/src/captions/stylizer.py:184 | consecutive captions get different animations |
| Stylization.KeywordMatchesMembers | apps/api/src/captions/stylizer.py:154-160 | a text is matched exactly when some token with that text has an emphasis tag and its lower-case form is a caption word's lower-case form |
| Stylization.KeywordMatchesEmpty | apps/api/src/captions/stylizer.py:154-160 | there are no matches exactly when no token qualifies |
| Stylization.Fallback | apps/api/src/captions/stylizer.py:163-168 | the fallback holds at most one word, exactly the last word with trailing '.', ',', '!', '?' stripped, and is empty exactly when that leaves nothing |
| Stylization.EmphasisWordsSelection | apps/api/src/captions/stylizer.py:145-171 | no words give no emphasis; with a qualifying token the result is the first min(2, number of matches) matches, each a qualifying token's text; otherwise the fallback |
| Stylization.EmphasisWordsFromCaption | apps/api/src/captions/stylizer.py:152-168 | every emphasis word is, up to case, a caption word, or a prefix of the last word |
| Stylization.SelectStylePrecedence | apps/api/src/captions/stylizer.py:200-219 | the first matching rule decides: stripped text ending '?' is italic; ending '!' or at most two words is bold; two or more emphasis words is highlight; otherwise normal |
| Stylization.StyledKeeps | apps/api/src/captions/stylizer.py:107-131 | styling keeps id, text, timing, words and position; emphasis only when emphasising, the index's animation only when varying; the style follows the chosen emphasis; validity kept |
| Stylization.ThemeSettingsFallback | apps/api/src/captions/stylizer.py:235-266 | an unknown theme name gets the default theme, which equals the settings record's defaults |
| Stylization.ApplyTheme | apps/api/src/captions/stylizer.py:221-272 | version and captions are kept; the settings are the named theme's, the default theme's for an unknown name, with a transparent background in every theme |
| Stylization.ApplyThemeLastWins | apps/api/src/captions/stylizer.py:266-272 | applying two themes in turn is applying the second |
| Stylization.CaptionStylizer.constructor | apps/api/src/captions/stylizer.py:30-37 | the tagger name is the given non-empty name or "en_core_web_sm" |
| Stylization.CaptionStylizer.FindEmphasisWords | apps/api/src/captions/stylizer.py:133-171 | the loop computes the emphasis of the caption tagged by the tagger |
| Stylization.CaptionStylizer.StylizeCaption | apps/api/src/captions/stylizer.py:89-131 | the styled caption of the given index and flags |
| Stylization.CaptionStylizer.Stylize | apps/api/src/captions/stylizer.py:55-87 | version "1.0", default settings, one styled caption per input caption, in order, styled at its own index |
| Stylization.StylizeKeeps | apps/api/src/captions/stylizer.py:73-131 | each styled caption keeps id, text, timing, words and position; no emphasis without emphasising; unchanged animation without varying |
| Transcription.MakeWord | apps/api/src/transcription/whisper_service.py:110-115 | a word's record has stripped text and missing times 0.0, and validation succeeds exactly when it is within bounds |
| Transcription.CollectSucceeds | apps/api/src/transcription/whisper_service.py:107-118 | extraction succeeds exactly when every word's record is within bounds |
| Transcription.CollectKeeps | apps/api/src/transcription/whisper_service.py:116-118 | a successful extraction keeps the records with non-empty text, in order |
| Transcription.CollectFirstError | apps/api/src/transcription/whisper_service.py:109-115 | a failed extraction reports the error of the first invalid word |
| Transcription.CollectFailureStable | apps/api/src/transcription/whisper_service.py:107-115 | once a word fails, later words do not change the outcome |
| Transcription.KeepNonEmptyMembers | apps/api/src/transcription/whisper_service.py:116-118 | the kept words are exactly the words with non-empty text |
| Transcription.KeepNonEmptyBySegment | apps/api/src/transcription/whisper_service.py:106-118 | the words kept from all segments are the words kept from each segment, in segment order |
| Transcription.ExtractSpecProperties | apps/api/src/transcription/whisper_service.py:104-120 | extracted words come in segment order, then in-segment order; each has stripped non-empty text and is within bounds; no more words than the segments hold |
| Transcription.ExtractSpecFailure | apps/api/src/transcription/whisper_service.py:109-115 | extraction fails exactly when some word is out of bounds, with the first such word's error |
| Transcription.GetDuration | apps/api/src/transcription/whisper_service.py:131-137 | 0.0 without segments, otherwise the last segment's end, 0.0 when it is missing |
| Transcription.AvailableModels | apps/api/src/transcription/whisper_service.py:145 | exactly "tiny", "base", "small", "medium", "large", including the default "base" |
| Transcription.TranscriptLanguage | apps/api/src/transcription/whisper_service.py:81 | the result's language, else a non-empty hint, else "en" |
| Transcription.BuildTranscriptMeaning | apps/api/src/transcription/whisper_service.py:73-82 | assembly succeeds exactly when every word is within bounds and the duration is not negative; the transcript is then valid, with the extracted words, the stripped text, the duration and the language rule |
| Transcription.WhisperService.constructor | apps/api/src/transcription/whisper_service.py:20-29 | the model name is the given non-empty name or "base", and no model is loaded |
| Transcription.WhisperService.ExtractWords | apps/api/src/transcription/whisper_service.py:95-120 | the nested loops compute the extraction |
| Transcription.WhisperService.GetAvailableModels | apps/api/src/transcription/whisper_service.py:139-145 | the offered model names |
| Transcription.WhisperService.ChangeModel | apps/api/src/transcription/whisper_service.py:147-165 | an unknown name fails and changes nothing; every offered name succeeds; a new offered name is taken and the cached model dropped; the current name changes nothing; a cached model always matches the name |
| Transcription.WhisperService.Model | apps/api/src/transcription/whisper_service.py:31-38 | the model of the current name is loaded on first use and reused afterwards |
| Transcription.WhisperService.Transcribe | apps/api/src/transcription/whisper_service.py:40-93 | a missing audio file fails and leaves the cache alone; otherwise the model named at the call is run, a failed run fails with its message, and a successful one gives the assembled transcript; that model stays loaded and cached |

## Left out

- Audio processing (ffmpeg and ffprobe calls) and the HTTP layer (routing, uploads, storage,
  timings, CORS) are I/O. `main.py` is not part of this model, except that
  `AnimationOrDefault` states its animation fallback. The segmenter's word limit is a
  mutable field, which is how the endpoint resets it.
- The spaCy tagger is a parameter mapping a caption's text to (token text, tag) pairs. Its
  loading, its download fallback and `get_word_pos_tags` are foreign calls.
- Whisper model loading and `model.transcribe` are foreign calls.
  - The loaded model is a handle carrying the name it was loaded with.
  - Transcription is a parameter.
  - Whether the audio file exists is a boolean parameter.
- The logging calls are output only.
- The random `uuid4` part of caption ids is an opaque suffix given by a parameter of
  `Segment`. Only the `caption_<index>_` prefix and uniqueness by index are stated.
- `Text.Lower` maps only ASCII letters. Python's full Unicode case mapping is not modelled.
- `Text.IsSpace` follows Python's whitespace set for `str.strip()`.
- The result dictionary is modelled with `Option` fields for keys that may be missing. A key
  present with the value `None` is not distinguished from a missing one. Non-numeric values,
  which validation would also reject, are not modelled.
- Validation errors carry only the offending value. Pydantic's error messages are not
  modelled. Inside `transcribe` every failure is re-raised as a `RuntimeError`. The model
  keeps the reason instead, as a `TranscriptionError`. It covers a validation failure of the
  words or the duration, and a failed run of the speech model.
- `WhisperService.Transcribe`: loading the speech model is taken never to fail. The model does
  not capture the `RuntimeError` raised when `whisper.load_model` fails, nor that the cache
  then stays empty. A failed run of the loaded model is modelled.
- Times are real numbers, so floating-point rounding in the 0.5 s gap test is not modelled.
- A caption is not required to end after it starts. The records check only that times are
  not negative, and `ValidCaption` states exactly that.
- Emphasis matching does not ignore punctuation. The stylizer compares lower-cased word texts
  only, and so does `KeywordMatches`.
- `_select_style` computes a lower-cased text it never uses. The model omits it.
- apps/api/src/captions/__init__.py only re-exports names.
