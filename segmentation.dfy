/**
 * Caption segmentation: a transcript's timed words are cut into short phrases (on a pause,
 * at the word limit, or after sentence-ending punctuation), too-short phrases are merged into
 * their successor, and each phrase becomes a caption.
 */
module Segmentation {
  import opened Wrappers
  import opened Seqs
  import opened Text
  import opened Models

  /** The tagger model named when no name (or an empty name) is given. */
  const DEFAULT_MODEL: string := "en_core_web_sm"

  /** A gap between two words longer than this many seconds starts a new phrase. */
  const PAUSE_THRESHOLD: real := 0.5
  const DEFAULT_MAX_WORDS: int := 4
  const DEFAULT_MIN_WORDS: int := 2

  /** The suffixes that end a sentence (the last is already covered by the first). */
  const SENTENCE_ENDINGS: seq<string> := [".", "!", "?", "..."]

  // ---------------------------------------------------------------------------------------
  // Sentence-ending punctuation

  /** Whether `text`, once stripped, ends with sentence-ending punctuation. */
  predicate EndsWithPunctuation(text: string) {
    EndsWithAny(Strip(text), SENTENCE_ENDINGS)
  }

  /** Only the last non-whitespace character decides; the "..." case adds nothing to ".". */
  lemma EndsWithPunctuationLastChar(text: string)
    ensures EndsWithPunctuation(text) <==>
      var t := Strip(text); t != [] && Last(t) in {'.', '!', '?'}
  {
    var t := Strip(text);
    if t != [] {
      assert t[|t| - 1..] == [Last(t)];
      assert EndsWith(t, SENTENCE_ENDINGS[0]) <==> Last(t) == '.';
      assert EndsWith(t, SENTENCE_ENDINGS[1]) <==> Last(t) == '!';
      assert EndsWith(t, SENTENCE_ENDINGS[2]) <==> Last(t) == '?';
      if EndsWith(t, SENTENCE_ENDINGS[3]) {
        assert t[|t| - 3..][2] == '.';
      }
    }
  }

  /** Whitespace around the word does not change the decision. */
  lemma EndsWithPunctuationIgnoresPadding(pre: string, text: string, post: string)
    requires AllSpace(pre) && AllSpace(post)
    ensures EndsWithPunctuation(pre + text + post) == EndsWithPunctuation(text)
  {
    StripPadding(pre, text, post);
  }

  // ---------------------------------------------------------------------------------------
  // First pass: cutting the word list into phrases

  /**
   * Whether a new phrase starts before `word`, given the last word `prev` of the current
   * phrase and the current phrase's length `runLength`.
   */
  predicate BreakBefore(prev: TranscriptWord, word: TranscriptWord, runLength: nat, maxWords: int) {
    || word.start - prev.end > PAUSE_THRESHOLD
    || runLength >= maxWords
    || EndsWithPunctuation(prev.text)
  }

  /** The phrases of the first pass, built word by word as the segmenter's loop builds them. */
  function Split(words: seq<TranscriptWord>, maxWords: int): (phrases: seq<seq<TranscriptWord>>)
    ensures NonEmptyParts(phrases)
    ensures phrases == [] <==> words == []
    decreases |words|
  {
    if words == [] then []
    else
      var init := Split(words[..|words| - 1], maxWords);
      var w := Last(words);
      if init == [] then [[w]]
      else if BreakBefore(Last(Last(init)), w, |Last(init)|, maxWords) then init + [[w]]
      else init[..|init| - 1] + [Last(init) + [w]]
  }

  /** No word inside phrase `p` is one before which a break is due. */
  predicate NoBreakInside(p: seq<TranscriptWord>, maxWords: int) {
    forall j :: 0 < j < |p| ==> !BreakBefore(p[j - 1], p[j], j, maxWords)
  }

  /** A break is due between the end of phrase `p` and the start of phrase `q`. */
  predicate BreakBetween(p: seq<TranscriptWord>, q: seq<TranscriptWord>, maxWords: int) {
    p != [] && q != [] && BreakBefore(Last(p), q[0], |p|, maxWords)
  }

  /**
   * `phrases` cut `words` into non-empty pieces, in order, breaking before a word exactly
   * when a break is due.
   */
  predicate IsBreakPartition(words: seq<TranscriptWord>, phrases: seq<seq<TranscriptWord>>, maxWords: int) {
    && Flatten(phrases) == words
    && NonEmptyParts(phrases)
    && (forall k :: 0 <= k < |phrases| ==> NoBreakInside(phrases[k], maxWords))
    && (forall k :: 0 < k < |phrases| ==> BreakBetween(phrases[k - 1], phrases[k], maxWords))
  }

  /** The longest phrase the first pass can produce. */
  function MaxPhraseLength(maxWords: int): nat {
    if maxWords < 1 then 1 else maxWords
  }

  /** One step of the first pass: how the phrases change when one more word arrives. */
  lemma SplitSnoc(pre: seq<TranscriptWord>, w: TranscriptWord, maxWords: int)
    ensures var init := Split(pre, maxWords);
      Split(pre + [w], maxWords) ==
        if init == [] then [[w]]
        else if BreakBefore(Last(Last(init)), w, |Last(init)|, maxWords) then init + [[w]]
        else init[..|init| - 1] + [Last(init) + [w]]
  {
    var words := pre + [w];
    assert words[..|words| - 1] == pre;
  }

  /** The loop's view of one step: the open phrase `current` is extended or closed. */
  lemma SplitExtend(prefix: seq<TranscriptWord>, w: TranscriptWord, pre: seq<seq<TranscriptWord>>, current: seq<TranscriptWord>, maxWords: int)
    requires current != [] && pre + [current] == Split(prefix, maxWords)
    ensures Split(prefix + [w], maxWords) ==
      if BreakBefore(Last(current), w, |current|, maxWords) then pre + [current] + [[w]] else pre + [current + [w]]
  {
    SplitSnoc(prefix, w, maxWords);
    var init := Split(prefix, maxWords);
    assert Last(init) == current && init[..|init| - 1] == pre;
  }

  /** One step of the loop that builds the first pass: close the open phrase or extend it. */
  lemma SplitStep(prefix: seq<TranscriptWord>, w: TranscriptWord, pre: seq<seq<TranscriptWord>>, current: seq<TranscriptWord>, maxWords: int, shouldBreak: bool)
    requires if current == [] then pre == [] && prefix == [] else pre + [current] == Split(prefix, maxWords)
    requires shouldBreak == (current != [] && BreakBefore(Last(current), w, |current|, maxWords))
    ensures shouldBreak ==> pre + [current] + [[w]] == Split(prefix + [w], maxWords)
    ensures !shouldBreak ==> pre + [current + [w]] == Split(prefix + [w], maxWords)
  {
    if current == [] {
      SplitSnoc(prefix, w, maxWords);
      assert prefix + [w] == [w];
    } else {
      SplitExtend(prefix, w, pre, current, maxWords);
    }
  }

  /** The first pass keeps every word, in order. */
  lemma {:induction false} SplitFlatten(words: seq<TranscriptWord>, maxWords: int)
    ensures Flatten(Split(words, maxWords)) == words
    decreases |words|
  {
    if words != [] {
      var pre := words[..|words| - 1];
      var w := Last(words);
      assert words == pre + [w];
      SplitFlatten(pre, maxWords);
      SplitSnoc(pre, w, maxWords);
      var init := Split(pre, maxWords);
      if init == [] {
        assert Flatten([[w]]) == [w] + Flatten([[w]][1..]);
      } else if BreakBefore(Last(Last(init)), w, |Last(init)|, maxWords) {
        FlattenSnoc(init, [w]);
      } else {
        var front := init[..|init| - 1];
        assert init == front + [Last(init)];
        FlattenSnoc(front, Last(init));
        FlattenSnoc(front, Last(init) + [w]);
      }
    }
  }

  /** Inside a phrase of the first pass no break is due. */
  lemma {:induction false} SplitNoBreakInside(words: seq<TranscriptWord>, maxWords: int)
    ensures forall k :: 0 <= k < |Split(words, maxWords)| ==> NoBreakInside(Split(words, maxWords)[k], maxWords)
    decreases |words|
  {
    if words != [] {
      var pre := words[..|words| - 1];
      var w := Last(words);
      assert words == pre + [w];
      SplitNoBreakInside(pre, maxWords);
      SplitSnoc(pre, w, maxWords);
      var init := Split(pre, maxWords);
      if init != [] && !BreakBefore(Last(Last(init)), w, |Last(init)|, maxWords) {
        var p := Last(init);
        assert NoBreakInside(p, maxWords);
        assert NoBreakInside(p + [w], maxWords) by {
          forall j | 0 < j < |p| + 1
            ensures !BreakBefore((p + [w])[j - 1], (p + [w])[j], j, maxWords)
          {
            if j < |p| {
              assert (p + [w])[j - 1] == p[j - 1] && (p + [w])[j] == p[j];
            }
          }
        }
      }
    }
  }

  /** Between two consecutive phrases of the first pass a break is due. */
  lemma {:induction false} SplitBreakBetween(words: seq<TranscriptWord>, maxWords: int)
    ensures var ps := Split(words, maxWords);
      forall k :: 0 < k < |ps| ==> BreakBetween(ps[k - 1], ps[k], maxWords)
    decreases |words|
  {
    if words != [] {
      var pre := words[..|words| - 1];
      var w := Last(words);
      assert words == pre + [w];
      SplitBreakBetween(pre, maxWords);
      SplitSnoc(pre, w, maxWords);
      var init := Split(pre, maxWords);
      var ps := Split(words, maxWords);
      if init != [] && !BreakBefore(Last(Last(init)), w, |Last(init)|, maxWords) {
        forall k | 0 < k < |ps| ensures BreakBetween(ps[k - 1], ps[k], maxWords) {
          assert BreakBetween(init[k - 1], init[k], maxWords);
          assert ps[k - 1] == init[k - 1];
          assert ps[k][0] == init[k][0];
        }
      }
    }
  }

  /** The first pass cuts the words exactly where breaks are due, and nowhere else. */
  lemma SplitIsBreakPartition(words: seq<TranscriptWord>, maxWords: int)
    ensures IsBreakPartition(words, Split(words, maxWords), maxWords)
  {
    SplitFlatten(words, maxWords);
    SplitNoBreakInside(words, maxWords);
    SplitBreakBetween(words, maxWords);
  }

  /** Every phrase of the first pass has at most max(maxWords, 1) words. */
  lemma {:induction false} SplitBound(words: seq<TranscriptWord>, maxWords: int)
    ensures forall k :: 0 <= k < |Split(words, maxWords)| ==> |Split(words, maxWords)[k]| <= MaxPhraseLength(maxWords)
    decreases |words|
  {
    if words != [] {
      var pre := words[..|words| - 1];
      SplitBound(pre, maxWords);
    }
  }

  /** Cutting where breaks are due leaves no choice: there is only one such partition. */
  lemma {:induction false} BreakPartitionUnique(words: seq<TranscriptWord>, ps: seq<seq<TranscriptWord>>, qs: seq<seq<TranscriptWord>>, maxWords: int)
    requires IsBreakPartition(words, ps, maxWords)
    requires IsBreakPartition(words, qs, maxWords)
    ensures ps == qs
    decreases |words|
  {
    FlattenNonEmpty(ps);
    FlattenNonEmpty(qs);
    if ps != [] {
      assert qs != [];
      var p, q := ps[0], qs[0];
      assert words == p + Flatten(ps[1..]);
      assert words == q + Flatten(qs[1..]);
      BreakAtFirstBoundary(words, ps, qs, maxWords);
      BreakAtFirstBoundary(words, qs, ps, maxWords);
      assert |p| == |q|;
      assert p == words[..|p|] == q;
      BreakPartitionTail(words, ps, maxWords);
      BreakPartitionTail(words, qs, maxWords);
      BreakPartitionUnique(words[|p|..], ps[1..], qs[1..], maxWords);
      assert ps == [p] + ps[1..];
      assert qs == [q] + qs[1..];
    }
  }

  /** A partition of this kind cannot end its first phrase before another one does. */
  lemma BreakAtFirstBoundary(words: seq<TranscriptWord>, ps: seq<seq<TranscriptWord>>, qs: seq<seq<TranscriptWord>>, maxWords: int)
    requires IsBreakPartition(words, ps, maxWords)
    requires IsBreakPartition(words, qs, maxWords)
    requires ps != [] && qs != []
    ensures |ps[0]| >= |qs[0]|
  {
    var p, q := ps[0], qs[0];
    assert words == p + Flatten(ps[1..]);
    assert words == q + Flatten(qs[1..]);
    assert NoBreakInside(q, maxWords);
    assert forall j :: 0 < j < |q| ==> !BreakBefore(words[j - 1], words[j], j, maxWords) by {
      forall j | 0 < j < |q| ensures !BreakBefore(words[j - 1], words[j], j, maxWords) {
        assert words[j - 1] == q[j - 1] && words[j] == q[j];
      }
    }
    if |ps| > 1 {
      FlattenNonEmpty(ps[1..]);
      assert Flatten(ps[1..]) == ps[1] + Flatten(ps[2..]);
      assert BreakBetween(ps[0], ps[1], maxWords);
      assert ps[1][0] == words[|p|];
      assert BreakBefore(words[|p| - 1], words[|p|], |p|, maxWords);
    } else {
      assert Flatten(ps[1..]) == [];
    }
  }

  /** Dropping the first phrase leaves a partition of the remaining words. */
  lemma BreakPartitionTail(words: seq<TranscriptWord>, ps: seq<seq<TranscriptWord>>, maxWords: int)
    requires IsBreakPartition(words, ps, maxWords)
    requires ps != []
    ensures IsBreakPartition(words[|ps[0]|..], ps[1..], maxWords)
  {
    assert words == ps[0] + Flatten(ps[1..]);
    var tail := ps[1..];
    forall k | 0 < k < |tail| ensures BreakBetween(tail[k - 1], tail[k], maxWords) {
      assert BreakBetween(ps[k], ps[k + 1], maxWords);
    }
    forall k | 0 <= k < |tail| ensures NoBreakInside(tail[k], maxWords) {
      assert NoBreakInside(ps[k + 1], maxWords);
    }
  }

  // ---------------------------------------------------------------------------------------
  // Second pass: merging too-short phrases into their successor

  /** Whether the first phrase is too short and joining it with the next stays within the limit. */
  predicate JoinsFirst<T>(ps: seq<seq<T>>, minWords: int, maxWords: int) {
    |ps| > 1 && |ps[0]| < minWords && |ps[0]| + |ps[1]| <= maxWords + 1
  }

  /** The merging loop, from the first phrase onwards. */
  function MergeRun<T>(ps: seq<seq<T>>, minWords: int, maxWords: int): seq<seq<T>>
    decreases |ps|
  {
    if ps == [] then []
    else if JoinsFirst(ps, minWords, maxWords) then [ps[0] + ps[1]] + MergeRun(ps[2..], minWords, maxWords)
    else [ps[0]] + MergeRun(ps[1..], minWords, maxWords)
  }

  /** One step of the merging loop at position `i`. */
  lemma MergeRunAt<T>(ps: seq<seq<T>>, i: nat, minWords: int, maxWords: int)
    requires i < |ps|
    ensures MergeRun(ps[i..], minWords, maxWords) ==
      if |ps[i]| < minWords && i + 1 < |ps| && |ps[i]| + |ps[i + 1]| <= maxWords + 1
      then [ps[i] + ps[i + 1]] + MergeRun(ps[i + 2..], minWords, maxWords)
      else [ps[i]] + MergeRun(ps[i + 1..], minWords, maxWords)
  {
    var tail := ps[i..];
    assert tail[0] == ps[i];
    if i + 1 < |ps| {
      assert tail[1] == ps[i + 1];
      assert tail[2..] == ps[i + 2..];
    }
    assert tail[1..] == ps[i + 1..];
  }

  /** The second pass: lists of at most one phrase are returned as they are. */
  function MergeShort<T>(ps: seq<seq<T>>, minWords: int, maxWords: int): seq<seq<T>> {
    if |ps| <= 1 then ps else MergeRun(ps, minWords, maxWords)
  }

  /**
   * `out` is `ps` read from the front, where a phrase shorter than `minWords` whose union
   * with the next has at most `maxWords + 1` words is joined to it, and every other phrase
   * is kept as it is.
   */
  ghost predicate JoinsNeighbours<T>(ps: seq<seq<T>>, out: seq<seq<T>>, minWords: int, maxWords: int)
    decreases |ps|
  {
    if ps == [] then out == []
    else
      && out != []
      && (|| (!JoinsFirst(ps, minWords, maxWords) && out[0] == ps[0]
              && JoinsNeighbours(ps[1..], out[1..], minWords, maxWords))
          || (JoinsFirst(ps, minWords, maxWords) && out[0] == ps[0] + ps[1]
              && JoinsNeighbours(ps[2..], out[1..], minWords, maxWords)))
  }

  lemma {:induction false} MergeRunJoinsNeighbours<T>(ps: seq<seq<T>>, minWords: int, maxWords: int)
    ensures JoinsNeighbours(ps, MergeRun(ps, minWords, maxWords), minWords, maxWords)
    decreases |ps|
  {
    if ps != [] {
      var out := MergeRun(ps, minWords, maxWords);
      if JoinsFirst(ps, minWords, maxWords) {
        MergeRunJoinsNeighbours(ps[2..], minWords, maxWords);
        assert out[1..] == MergeRun(ps[2..], minWords, maxWords);
      } else {
        MergeRunJoinsNeighbours(ps[1..], minWords, maxWords);
        assert out[1..] == MergeRun(ps[1..], minWords, maxWords);
      }
    }
  }

  /** The joining rule leaves no choice: the merging loop is the only output it admits. */
  lemma {:induction false} JoinsNeighboursDetermined<T>(ps: seq<seq<T>>, out: seq<seq<T>>, minWords: int, maxWords: int)
    requires JoinsNeighbours(ps, out, minWords, maxWords)
    ensures out == MergeRun(ps, minWords, maxWords)
    decreases |ps|
  {
    if ps != [] {
      if JoinsFirst(ps, minWords, maxWords) {
        JoinsNeighboursDetermined(ps[2..], out[1..], minWords, maxWords);
      } else {
        JoinsNeighboursDetermined(ps[1..], out[1..], minWords, maxWords);
      }
      assert out == [out[0]] + out[1..];
    }
  }

  /** Joining neighbours keeps the words and their order, and never adds phrases. */
  lemma {:induction false} JoinsNeighboursPreserve<T>(ps: seq<seq<T>>, out: seq<seq<T>>, minWords: int, maxWords: int)
    requires JoinsNeighbours(ps, out, minWords, maxWords)
    ensures Flatten(out) == Flatten(ps)
    ensures |out| <= |ps|
    ensures NonEmptyParts(ps) ==> NonEmptyParts(out)
    ensures (forall k :: 0 <= k < |ps| ==> |ps[k]| <= MaxPhraseLength(maxWords)) ==>
      forall k :: 0 <= k < |out| ==> |out[k]| <= MaxPhraseLength(maxWords) || |out[k]| <= maxWords + 1
    decreases |ps|
  {
    if ps != [] {
      if !JoinsFirst(ps, minWords, maxWords) {
        JoinsNeighboursPreserve(ps[1..], out[1..], minWords, maxWords);
      } else {
        JoinsNeighboursPreserve(ps[2..], out[1..], minWords, maxWords);
        assert Flatten(ps) == ps[0] + (ps[1] + Flatten(ps[2..]));
      }
      assert out == [out[0]] + out[1..];
    }
  }

  /**
   * The second pass leaves lists of at most one phrase alone; otherwise it only joins short
   * phrases to their successor, so the words, their order and non-emptiness are kept and
   * the number of phrases does not grow.
   */
  lemma MergeShortPreserves<T>(ps: seq<seq<T>>, minWords: int, maxWords: int)
    ensures var out := MergeShort(ps, minWords, maxWords);
      && (|ps| <= 1 ==> out == ps)
      && JoinsNeighbours(ps, out, minWords, maxWords)
      && Flatten(out) == Flatten(ps)
      && |out| <= |ps|
      && (NonEmptyParts(ps) ==> NonEmptyParts(out))
  {
    MergeRunJoinsNeighbours(ps, minWords, maxWords);
    JoinsNeighboursPreserve(ps, MergeRun(ps, minWords, maxWords), minWords, maxWords);
  }

  /**
   * The phrases of a word list: both passes. They cut the word list into non-empty pieces,
   * in order, none longer than `maxWords + 1` words unless it is a single word.
   */
  function Phrases(words: seq<TranscriptWord>, maxWords: int, minWords: int): (phrases: seq<seq<TranscriptWord>>)
    ensures Flatten(phrases) == words
    ensures NonEmptyParts(phrases)
    ensures |phrases| <= |words|
    ensures forall k :: 0 <= k < |phrases| ==> |phrases[k]| == 1 || |phrases[k]| <= maxWords + 1
  {
    var pre := Split(words, maxWords);
    SplitIsBreakPartition(words, maxWords);
    SplitBound(words, maxWords);
    MergeRunJoinsNeighbours(pre, minWords, maxWords);
    JoinsNeighboursPreserve(pre, MergeRun(pre, minWords, maxWords), minWords, maxWords);
    var phrases := MergeShort(pre, minWords, maxWords);
    FlattenNonEmpty(phrases);
    phrases
  }

  // ---------------------------------------------------------------------------------------
  // From a phrase to a caption

  function ToCaptionWord(w: TranscriptWord): CaptionWord {
    CaptionWord(w.text, w.start, w.end)
  }

  function CaptionWords(ws: seq<TranscriptWord>): (r: seq<CaptionWord>)
    ensures |r| == |ws|
  {
    seq(|ws|, k requires 0 <= k < |ws| => ToCaptionWord(ws[k]))
  }

  function Texts(ws: seq<TranscriptWord>): (r: seq<string>)
    ensures |r| == |ws|
  {
    seq(|ws|, k requires 0 <= k < |ws| => ws[k].text)
  }

  /** A caption id: "caption_", the caption's index, "_", then an opaque random suffix. */
  function CaptionId(index: nat, suffix: string): string {
    "caption_" + NatToString(index) + "_" + suffix
  }

  /** The caption for one phrase; style, emphasis and position take their neutral values. */
  function CreateCaption(words: seq<TranscriptWord>, index: nat, defaultAnimation: CaptionAnimation, idSuffix: string): Caption
    requires words != []
  {
    Caption(
      id := CaptionId(index, idSuffix),
      text := Join(" ", Texts(words)),
      start := words[0].start,
      end := Last(words).end,
      words := CaptionWords(words),
      emphasis := [],
      style := Normal,
      animation := defaultAnimation,
      position := Center)
  }

  /** Ids of captions with different indices differ, whatever their random suffixes. */
  lemma CaptionIdInjective(i: nat, j: nat, s: string, t: string)
    requires CaptionId(i, s) == CaptionId(j, t)
    ensures i == j
  {
    var a, b := NatToString(i), NatToString(j);
    var u := CaptionId(i, s)[8..];
    assert u == a + ['_'] + s;
    assert u == b + ['_'] + t;
    assert '_' !in a && '_' !in b;
    FindCharAfter(a, '_', s);
    FindCharAfter(b, '_', t);
    assert a == u[..|a|] == b;
    NatToStringInjective(i, j);
  }

  /**
   * The caption of a phrase carries one caption word per word with the same text and timing,
   * starts when its first word starts and ends when its last word ends, and its id begins
   * with "caption_<index>_".
   */
  lemma CreateCaptionWords(words: seq<TranscriptWord>, index: nat, defaultAnimation: CaptionAnimation, idSuffix: string)
    requires words != []
    ensures var c := CreateCaption(words, index, defaultAnimation, idSuffix);
      && |c.words| == |words|
      && (forall k :: 0 <= k < |words| ==>
            c.words[k].text == words[k].text && c.words[k].start == words[k].start && c.words[k].end == words[k].end)
      && c.start == words[0].start && c.end == Last(words).end
      && "caption_" + NatToString(index) + "_" <= c.id
      && c.emphasis == [] && c.style == Normal && c.position == Center && c.animation == defaultAnimation
  {
  }

  /** When no word contains a space, the caption text splits back into the phrase's words. */
  lemma CreateCaptionText(words: seq<TranscriptWord>, index: nat, defaultAnimation: CaptionAnimation, idSuffix: string)
    requires words != []
    requires forall k :: 0 <= k < |words| ==> ' ' !in words[k].text
    ensures SplitOn(CreateCaption(words, index, defaultAnimation, idSuffix).text, ' ') == Texts(words)
  {
    SplitJoin(Texts(words), ' ');
    assert [' '] == " ";
  }

  /** With the default animation the segmenter's caption is the record with all its defaults. */
  lemma CreateCaptionUsesRecordDefaults(words: seq<TranscriptWord>, index: nat, idSuffix: string)
    requires words != []
    ensures var c := CreateCaption(words, index, ScaleIn, idSuffix);
      c == Caption(c.id, c.text, c.start, c.end, c.words)
  {
  }

  /** The words follow each other in time: each ends no earlier than it starts and no later than the next starts. */
  predicate Chronological(ws: seq<TranscriptWord>) {
    && (forall k :: 0 <= k < |ws| ==> ws[k].start <= ws[k].end)
    && (forall k :: 0 < k < |ws| ==> ws[k - 1].end <= ws[k].start)
  }

  lemma {:induction false} ChronologicalMonotone(ws: seq<TranscriptWord>, i: nat, j: nat)
    requires Chronological(ws)
    requires i <= j < |ws|
    ensures ws[i].start <= ws[j].start && ws[i].end <= ws[j].end
    decreases j - i
  {
    if i < j {
      ChronologicalMonotone(ws, i, j - 1);
      assert ws[j - 1].end <= ws[j].start;
    }
  }

  /** For words in time order, the caption's interval covers every one of its words. */
  lemma CaptionSpansWords(words: seq<TranscriptWord>, index: nat, defaultAnimation: CaptionAnimation, idSuffix: string)
    requires words != []
    requires Chronological(words)
    ensures var c := CreateCaption(words, index, defaultAnimation, idSuffix);
      forall k :: 0 <= k < |c.words| ==> c.start <= c.words[k].start <= c.words[k].end <= c.end
  {
    var c := CreateCaption(words, index, defaultAnimation, idSuffix);
    forall k | 0 <= k < |c.words|
      ensures c.start <= c.words[k].start <= c.words[k].end <= c.end
    {
      ChronologicalMonotone(words, 0, k);
      ChronologicalMonotone(words, k, |words| - 1);
    }
  }

  /** Captions made of validated words are themselves valid. */
  lemma CreateCaptionValid(words: seq<TranscriptWord>, index: nat, defaultAnimation: CaptionAnimation, idSuffix: string)
    requires words != []
    requires forall k :: 0 <= k < |words| ==> ValidTranscriptWord(words[k])
    ensures ValidCaption(CreateCaption(words, index, defaultAnimation, idSuffix))
  {
    assert ValidTranscriptWord(Last(words));
  }

  /** The caption words of a concatenation are the concatenation of the caption words. */
  lemma {:induction false} CaptionWordsFlatten(phrases: seq<seq<TranscriptWord>>)
    ensures Flatten(seq(|phrases|, i requires 0 <= i < |phrases| => CaptionWords(phrases[i])))
      == CaptionWords(Flatten(phrases))
  {
    var mapped := seq(|phrases|, i requires 0 <= i < |phrases| => CaptionWords(phrases[i]));
    if phrases != [] {
      CaptionWordsFlatten(phrases[1..]);
      assert mapped[1..] == seq(|phrases[1..]|, i requires 0 <= i < |phrases[1..]| => CaptionWords(phrases[1..][i]));
      assert CaptionWords(phrases[0] + Flatten(phrases[1..])) == CaptionWords(phrases[0]) + CaptionWords(Flatten(phrases[1..]));
    }
  }

  /** The caption words of each caption, in caption order. */
  function WordsOf(captions: seq<Caption>): (r: seq<seq<CaptionWord>>)
    ensures |r| == |captions|
  {
    seq(|captions|, i requires 0 <= i < |captions| => captions[i].words)
  }

  // ---------------------------------------------------------------------------------------
  // The segmenter

  /** Cuts transcripts into caption phrases; the word limit is reset by callers before each use. */
  class CaptionSegmenter {
    var modelName: string
    var maxWords: int
    var minWords: int

    constructor (name: Option<string> := None, maxWordsPerCaption: int := DEFAULT_MAX_WORDS, minWordsPerCaption: int := DEFAULT_MIN_WORDS)
      ensures modelName == OrDefault(name, DEFAULT_MODEL)
      ensures maxWords == maxWordsPerCaption && minWords == minWordsPerCaption
    {
      modelName := OrDefault(name, DEFAULT_MODEL);
      maxWords := maxWordsPerCaption;
      minWords := minWordsPerCaption;
    }

    /** Both passes over a word list. */
    method GroupIntoPhrases(words: seq<TranscriptWord>) returns (phrases: seq<seq<TranscriptWord>>)
      ensures phrases == MergeShort(Split(words, maxWords), minWords, maxWords)
    {
      if words == [] {
        return [];
      }
      var m := maxWords;
      var pre: seq<seq<TranscriptWord>> := [];
      var current: seq<TranscriptWord> := [];
      for i := 0 to |words|
        invariant current == [] ==> pre == [] && i == 0
        invariant current != [] ==> pre + [current] == Split(words[..i], m)
      {
        var word := words[i];
        var shouldBreak := false;
        if current != [] {
          var prev := current[|current| - 1];
          var gap := word.start - prev.end;
          if gap > PAUSE_THRESHOLD {
            shouldBreak := true;
          }
          if |current| >= m {
            shouldBreak := true;
          }
          if EndsWithPunctuation(prev.text) {
            shouldBreak := true;
          }
        }
        SplitStep(words[..i], word, pre, current, m, shouldBreak);
        assert words[..i + 1] == words[..i] + [word];
        if shouldBreak {
          pre := pre + [current];
          current := [word];
        } else {
          current := current + [word];
        }
      }
      assert words[..|words|] == words;
      pre := pre + [current];
      phrases := MergeShortPhrases(pre);
    }

    /** The second pass over the phrases of the first. */
    method MergeShortPhrases<T>(phrases: seq<seq<T>>) returns (merged: seq<seq<T>>)
      ensures merged == MergeShort(phrases, minWords, maxWords)
    {
      if |phrases| <= 1 {
        return phrases;
      }
      merged := [];
      var i := 0;
      while i < |phrases|
        invariant 0 <= i <= |phrases|
        invariant merged + MergeRun(phrases[i..], minWords, maxWords) == MergeRun(phrases, minWords, maxWords)
      {
        MergeRunAt(phrases, i, minWords, maxWords);
        var current := phrases[i];
        if |current| < minWords && i + 1 < |phrases| {
          var next := phrases[i + 1];
          if |current| + |next| <= maxWords + 1 {
            merged := merged + [current + next];
            i := i + 2;
            continue;
          }
        }
        merged := merged + [current];
        i := i + 1;
      }
    }

    /**
     * One caption per phrase, in phrase order, the i-th with index i. The captions' words are
     * the transcript's words, in order; ids are pairwise distinct; validated words give
     * valid captions.
     */
    method Segment(transcript: Transcript, defaultAnimation: CaptionAnimation := ScaleIn, idSuffix: nat -> string)
      returns (captions: seq<Caption>)
      ensures transcript.words == [] ==> captions == []
      ensures var phrases := Phrases(transcript.words, maxWords, minWords);
        && |captions| == |phrases|
        && forall i :: 0 <= i < |phrases| ==> captions[i] == CreateCaption(phrases[i], i, defaultAnimation, idSuffix(i))
      ensures Flatten(WordsOf(captions)) == CaptionWords(transcript.words)
      ensures forall i, j :: 0 <= i < j < |captions| ==> captions[i].id != captions[j].id
      ensures (forall k :: 0 <= k < |transcript.words| ==> ValidTranscriptWord(transcript.words[k])) ==>
        forall i :: 0 <= i < |captions| ==> ValidCaption(captions[i])
    {
      ghost var expected := Phrases(transcript.words, maxWords, minWords);
      if transcript.words == [] {
        FlattenNonEmpty(expected);
        return [];
      }
      var phrases := GroupIntoPhrases(transcript.words);
      assert phrases == expected;
      captions := [];
      for i := 0 to |phrases|
        invariant |captions| == i
        invariant forall k :: 0 <= k < i ==> captions[k] == CreateCaption(phrases[k], k, defaultAnimation, idSuffix(k))
      {
        var caption := CreateCaption(phrases[i], i, defaultAnimation, idSuffix(i));
        captions := captions + [caption];
      }
      CaptionsCoverWords(transcript.words, phrases, captions, defaultAnimation, idSuffix);
      CaptionIdsDistinct(phrases, captions, defaultAnimation, idSuffix);
      CaptionsValid(transcript.words, phrases, captions, defaultAnimation, idSuffix);
    }
  }

  /** The captions made from the phrases, one per phrase and in order. */
  predicate CaptionsOf(phrases: seq<seq<TranscriptWord>>, captions: seq<Caption>, defaultAnimation: CaptionAnimation, idSuffix: nat -> string)
    requires NonEmptyParts(phrases)
  {
    && |captions| == |phrases|
    && forall i :: 0 <= i < |phrases| ==> captions[i] == CreateCaption(phrases[i], i, defaultAnimation, idSuffix(i))
  }

  /** The captions' words, one caption after another, are the transcript's words. */
  lemma CaptionsCoverWords(words: seq<TranscriptWord>, phrases: seq<seq<TranscriptWord>>, captions: seq<Caption>, defaultAnimation: CaptionAnimation, idSuffix: nat -> string)
    requires Flatten(phrases) == words && NonEmptyParts(phrases)
    requires CaptionsOf(phrases, captions, defaultAnimation, idSuffix)
    ensures Flatten(WordsOf(captions)) == CaptionWords(words)
  {
    assert WordsOf(captions) == seq(|phrases|, i requires 0 <= i < |phrases| => CaptionWords(phrases[i]));
    CaptionWordsFlatten(phrases);
  }

  /** No two captions share an id. */
  lemma CaptionIdsDistinct(phrases: seq<seq<TranscriptWord>>, captions: seq<Caption>, defaultAnimation: CaptionAnimation, idSuffix: nat -> string)
    requires NonEmptyParts(phrases)
    requires CaptionsOf(phrases, captions, defaultAnimation, idSuffix)
    ensures forall i, j :: 0 <= i < j < |captions| ==> captions[i].id != captions[j].id
  {
    forall i, j | 0 <= i < j < |captions| ensures captions[i].id != captions[j].id {
      if captions[i].id == captions[j].id {
        CaptionIdInjective(i, j, idSuffix(i), idSuffix(j));
      }
    }
  }

  /** Captions made from words within bounds are within bounds. */
  lemma CaptionsValid(words: seq<TranscriptWord>, phrases: seq<seq<TranscriptWord>>, captions: seq<Caption>, defaultAnimation: CaptionAnimation, idSuffix: nat -> string)
    requires Flatten(phrases) == words && NonEmptyParts(phrases)
    requires CaptionsOf(phrases, captions, defaultAnimation, idSuffix)
    ensures (forall k :: 0 <= k < |words| ==> ValidTranscriptWord(words[k])) ==>
      forall i :: 0 <= i < |captions| ==> ValidCaption(captions[i])
  {
    if forall k :: 0 <= k < |words| ==> ValidTranscriptWord(words[k]) {
      forall i | 0 <= i < |captions| ensures ValidCaption(captions[i]) {
        PhraseWordsValid(words, phrases, i);
        CreateCaptionValid(phrases[i], i, defaultAnimation, idSuffix(i));
      }
    }
  }

  /** A word of a phrase is a word of the list the phrases partition. */
  lemma {:induction false} PhraseWordsValid(words: seq<TranscriptWord>, phrases: seq<seq<TranscriptWord>>, i: nat)
    requires Flatten(phrases) == words
    requires i < |phrases|
    requires forall k :: 0 <= k < |words| ==> ValidTranscriptWord(words[k])
    ensures forall k :: 0 <= k < |phrases[i]| ==> ValidTranscriptWord(phrases[i][k])
    decreases i
  {
    assert words == phrases[0] + Flatten(phrases[1..]);
    if i == 0 {
      forall k | 0 <= k < |phrases[0]| ensures ValidTranscriptWord(phrases[0][k]) {
        assert phrases[0][k] == words[k];
      }
    } else {
      var rest := Flatten(phrases[1..]);
      forall k | 0 <= k < |rest| ensures ValidTranscriptWord(rest[k]) {
        assert rest[k] == words[|phrases[0]| + k];
      }
      PhraseWordsValid(rest, phrases[1..], i - 1);
    }
  }
}
