/**
 * The caption stylizer: keyword emphasis from part-of-speech tags, an animation cycle by
 * caption index, a style chosen by a precedence chain of text rules, and named themes.
 * The part-of-speech tagger is a parameter that maps a caption's text to its tokens.
 */
module Stylization {
  import opened Wrappers
  import opened Seqs
  import opened Text
  import opened Models

  /** The tagger model loaded when no name (or an empty name) is given. */
  const DEFAULT_MODEL: string := "en_core_web_sm"

  /** The part-of-speech tags whose words are candidates for emphasis. */
  const EMPHASIS_POS_TAGS: set<string> := {"NOUN", "VERB", "ADJ", "ADV", "PROPN"}

  /** The animations captions cycle through. */
  const ANIMATION_CYCLE: seq<CaptionAnimation> := [ScaleIn, FadeIn, WordByWord]

  /** Trailing characters removed from the fallback emphasis word. */
  const FALLBACK_TRIM: set<char> := {'.', ',', '!', '?'}

  /** At most this many words of a caption are emphasised. */
  const MAX_EMPHASIS: nat := 2

  /** One token of the tagger's analysis: its text and its coarse part-of-speech tag. */
  datatype Token = Token(text: string, pos: string)

  // ---------------------------------------------------------------------------------------
  // Animation
  // ---------------------------------------------------------------------------------------

  /** The animation of the caption at position `index`. */
  function SelectAnimation(index: nat): (a: CaptionAnimation)
    ensures a in ANIMATION_CYCLE
  {
    ANIMATION_CYCLE[index % |ANIMATION_CYCLE|]
  }

  /** The animation repeats every three captions and runs scale-in, fade-in, word-by-word. */
  lemma SelectAnimationCycle(index: nat)
    ensures SelectAnimation(index + 3) == SelectAnimation(index)
    ensures index % 3 == 0 ==> SelectAnimation(index) == ScaleIn
    ensures index % 3 == 1 ==> SelectAnimation(index) == FadeIn
    ensures index % 3 == 2 ==> SelectAnimation(index) == WordByWord
  {
    assert (index + 3) % 3 == index % 3;
  }

  /** Consecutive captions never share an animation when animations vary. */
  lemma SelectAnimationNeighboursDiffer(index: nat)
    ensures SelectAnimation(index) != SelectAnimation(index + 1)
  {
    if index % 3 == 2 {
      assert (index + 1) % 3 == 0;
    } else {
      assert (index + 1) % 3 == index % 3 + 1;
    }
  }

  // ---------------------------------------------------------------------------------------
  // Emphasis
  // ---------------------------------------------------------------------------------------

  /** The lower-cased texts of a caption's words. */
  function LowerTexts(words: seq<CaptionWord>): (r: seq<string>)
    ensures |r| == |words|
  {
    seq(|words|, k requires 0 <= k < |words| => Lower(words[k].text))
  }

  /** A token worth emphasising: a content word whose lower-cased text is one of the caption's words. */
  predicate IsKeyword(t: Token, wordTexts: seq<string>) {
    t.pos in EMPHASIS_POS_TAGS && Lower(t.text) in wordTexts
  }

  /** The texts of the keyword tokens, in token order. */
  function KeywordMatches(tokens: seq<Token>, wordTexts: seq<string>): (r: seq<string>)
    ensures |r| <= |tokens|
  {
    if tokens == [] then []
    else
      var t := Last(tokens);
      KeywordMatches(tokens[..|tokens| - 1], wordTexts) + if IsKeyword(t, wordTexts) then [t.text] else []
  }

  /** A text is among the matches exactly when some keyword token has that text. */
  lemma {:induction false} KeywordMatchesMembers(tokens: seq<Token>, wordTexts: seq<string>, x: string)
    ensures x in KeywordMatches(tokens, wordTexts) <==>
      exists k :: 0 <= k < |tokens| && tokens[k].text == x && IsKeyword(tokens[k], wordTexts)
  {
    if tokens != [] {
      var init := tokens[..|tokens| - 1];
      KeywordMatchesMembers(init, wordTexts, x);
      if x in KeywordMatches(tokens, wordTexts) {
        if x in KeywordMatches(init, wordTexts) {
          var k :| 0 <= k < |init| && init[k].text == x && IsKeyword(init[k], wordTexts);
          assert tokens[k] == init[k];
        } else {
          assert tokens[|tokens| - 1].text == x;
        }
      } else {
        forall k | 0 <= k < |tokens| && tokens[k].text == x
          ensures !IsKeyword(tokens[k], wordTexts)
        {
          if k < |init| {
            assert init[k] == tokens[k];
          }
        }
      }
    }
  }

  /** No keyword token at all exactly when there are no matches. */
  lemma KeywordMatchesEmpty(tokens: seq<Token>, wordTexts: seq<string>)
    ensures KeywordMatches(tokens, wordTexts) == [] <==>
      forall k :: 0 <= k < |tokens| ==> !IsKeyword(tokens[k], wordTexts)
  {
    var m := KeywordMatches(tokens, wordTexts);
    if m != [] {
      KeywordMatchesMembers(tokens, wordTexts, m[0]);
    } else {
      forall k | 0 <= k < |tokens| ensures !IsKeyword(tokens[k], wordTexts) {
        KeywordMatchesMembers(tokens, wordTexts, tokens[k].text);
      }
    }
  }

  /** The fallback when no keyword matched: the last word without trailing '.', ',', '!' and '?'. */
  function Fallback(words: seq<CaptionWord>): (r: seq<string>)
    requires words != []
    ensures |r| <= 1
    ensures r == [] <==> RStripChars(Last(words).text, FALLBACK_TRIM) == []
    ensures r != [] ==> r[0] == RStripChars(Last(words).text, FALLBACK_TRIM) && r[0] <= Last(words).text
  {
    var clean := RStripChars(Last(words).text, FALLBACK_TRIM);
    if clean != [] then [clean] else []
  }

  /** The emphasis words of a caption whose text the tagger split into `tokens`. */
  function EmphasisWords(caption: Caption, tokens: seq<Token>): seq<string> {
    if caption.words == [] then []
    else
      var matches := KeywordMatches(tokens, LowerTexts(caption.words));
      var emphasis := if matches == [] then Fallback(caption.words) else matches;
      if |emphasis| <= MAX_EMPHASIS then emphasis else emphasis[..MAX_EMPHASIS]
  }

  /**
   * What the emphasis of a caption is: nothing for a caption without words; otherwise the
   * first two keyword tokens' texts, or, when no token is a keyword, the cleaned last word
   * if anything of it is left.
   */
  lemma EmphasisWordsSelection(caption: Caption, tokens: seq<Token>)
    ensures var r := EmphasisWords(caption, tokens);
      && |r| <= MAX_EMPHASIS
      && (caption.words == [] ==> r == [])
      && (caption.words != [] && (exists k :: 0 <= k < |tokens| && IsKeyword(tokens[k], LowerTexts(caption.words))) ==>
            var m := KeywordMatches(tokens, LowerTexts(caption.words));
            r != [] && r <= m && |r| == (if |m| < MAX_EMPHASIS then |m| else MAX_EMPHASIS)
            && forall i :: 0 <= i < |r| ==>
                 exists k :: 0 <= k < |tokens| && tokens[k].text == r[i] && IsKeyword(tokens[k], LowerTexts(caption.words)))
      && (caption.words != [] && (forall k :: 0 <= k < |tokens| ==> !IsKeyword(tokens[k], LowerTexts(caption.words))) ==>
            r == Fallback(caption.words))
  {
    var r := EmphasisWords(caption, tokens);
    if caption.words != [] {
      var wt := LowerTexts(caption.words);
      var matches := KeywordMatches(tokens, wt);
      KeywordMatchesEmpty(tokens, wt);
      if matches != [] {
        assert r <= matches;
        forall i | 0 <= i < |r|
          ensures exists k :: 0 <= k < |tokens| && tokens[k].text == r[i] && IsKeyword(tokens[k], wt)
        {
          assert r[i] in matches;
          KeywordMatchesMembers(tokens, wt, r[i]);
        }
      }
    }
  }

  /** Every emphasis word occurs in the caption, up to case or trailing punctuation. */
  lemma EmphasisWordsFromCaption(caption: Caption, tokens: seq<Token>, i: nat)
    requires i < |EmphasisWords(caption, tokens)|
    ensures var e := EmphasisWords(caption, tokens)[i];
      Lower(e) in LowerTexts(caption.words) || (caption.words != [] && e <= Last(caption.words).text)
  {
    EmphasisWordsSelection(caption, tokens);
    var e := EmphasisWords(caption, tokens)[i];
    var wt := LowerTexts(caption.words);
    if exists k :: 0 <= k < |tokens| && IsKeyword(tokens[k], wt) {
      var k :| 0 <= k < |tokens| && tokens[k].text == e && IsKeyword(tokens[k], wt);
    }
  }

  // ---------------------------------------------------------------------------------------
  // Style
  // ---------------------------------------------------------------------------------------

  /** The stripped text of a caption ends with the character `c`. */
  predicate StrippedEndsWith(text: string, c: char) {
    EndsWith(Strip(text), [c])
  }

  /** The style of a caption given the emphasis chosen for it. */
  function SelectStyle(caption: Caption, emphasis: seq<string>): CaptionStyle {
    if StrippedEndsWith(caption.text, '?') then Italic
    else if StrippedEndsWith(caption.text, '!') then Bold
    else if |caption.words| <= 2 then Bold
    else if |emphasis| >= 2 then Highlight
    else Normal
  }

  /**
   * The rules apply in order and the first one that holds decides: a question is italic;
   * an exclamation or a caption of at most two words is bold; two or more emphasis words
   * highlight; anything else is normal. Surrounding whitespace of the text does not count.
   */
  lemma SelectStylePrecedence(caption: Caption, emphasis: seq<string>)
    ensures var t := Strip(caption.text);
      var question := t != [] && Last(t) == '?';
      var exclamation := t != [] && Last(t) == '!';
      var s := SelectStyle(caption, emphasis);
      && (s == Italic <==> question)
      && (s == Bold <==> !question && (exclamation || |caption.words| <= 2))
      && (s == Highlight <==> !question && !exclamation && |caption.words| > 2 && |emphasis| >= 2)
      && (s == Normal <==> !question && !exclamation && |caption.words| > 2 && |emphasis| < 2)
  {
    var t := Strip(caption.text);
    if t != [] {
      assert t[|t| - 1..] == [Last(t)];
    }
  }

  // ---------------------------------------------------------------------------------------
  // One caption and the whole document
  // ---------------------------------------------------------------------------------------

  /** The caption at position `index` after styling, its text tagged as `tokens`. */
  function Styled(caption: Caption, index: nat, varyAnimations: bool, emphasizeKeywords: bool, tokens: seq<Token>): Caption {
    var emphasis := if emphasizeKeywords then EmphasisWords(caption, tokens) else [];
    Caption(
      id := caption.id,
      text := caption.text,
      start := caption.start,
      end := caption.end,
      words := caption.words,
      emphasis := emphasis,
      style := SelectStyle(caption, emphasis),
      animation := if varyAnimations then SelectAnimation(index) else caption.animation,
      position := caption.position)
  }

  /**
   * Styling keeps the id, text, timing, words and position; it sets the emphasis only when
   * keywords are emphasised and the animation only when animations vary.
   */
  lemma StyledKeeps(caption: Caption, index: nat, varyAnimations: bool, emphasizeKeywords: bool, tokens: seq<Token>)
    ensures var r := Styled(caption, index, varyAnimations, emphasizeKeywords, tokens);
      && r.id == caption.id && r.text == caption.text
      && r.start == caption.start && r.end == caption.end
      && r.words == caption.words && r.position == caption.position
      && r.emphasis == (if emphasizeKeywords then EmphasisWords(caption, tokens) else [])
      && |r.emphasis| <= MAX_EMPHASIS
      && r.animation == (if varyAnimations then SelectAnimation(index) else caption.animation)
      && r.style == SelectStyle(caption, r.emphasis)
      && (ValidCaption(caption) ==> ValidCaption(r))
  {
    EmphasisWordsSelection(caption, tokens);
  }

  // ---------------------------------------------------------------------------------------
  // Themes
  // ---------------------------------------------------------------------------------------

  /** The named themes. */
  const THEMES: map<string, CaptionSettings> := map[
    "default" := CaptionSettings(fontFamily := "Inter", fontSize := 48, fontWeight := 700, color := "#FFFFFF", emphasisScale := 1.2),
    "minimal" := CaptionSettings(fontFamily := "Helvetica", fontSize := 40, fontWeight := 400, color := "#FFFFFF", emphasisScale := 1.1),
    "bold" := CaptionSettings(fontFamily := "Impact", fontSize := 56, fontWeight := 900, color := "#FFFFFF", emphasisScale := 1.3),
    "playful" := CaptionSettings(fontFamily := "Comic Sans MS", fontSize := 44, fontWeight := 700, color := "#FFFF00", emphasisScale := 1.4)
  ]

  /** The settings of a theme; an unknown name gets the default theme. */
  function ThemeSettings(theme: string): (s: CaptionSettings)
    ensures theme in THEMES ==> s == THEMES[theme]
    ensures s.backgroundColor == "transparent"
  {
    if theme in THEMES then THEMES[theme] else THEMES["default"]
  }

  /** The default theme is the settings record's own defaults, and so is every unknown name. */
  lemma ThemeSettingsFallback(theme: string)
    ensures theme !in {"default", "minimal", "bold", "playful"} ==> ThemeSettings(theme) == CaptionSettings()
    ensures ThemeSettings("default") == CaptionSettings()
  {
  }

  /** A document with the settings of `theme` and nothing else changed. */
  function ApplyTheme(doc: Captions, theme: string := "default"): (r: Captions)
    ensures r.version == doc.version && r.captions == doc.captions
    ensures r.settings.Some? && r.settings.value.backgroundColor == "transparent"
    ensures theme in THEMES ==> r.settings == Some(THEMES[theme])
    ensures r.settings == Some(ThemeSettings(theme))
  {
    Captions(version := doc.version, captions := doc.captions, settings := Some(ThemeSettings(theme)))
  }

  /** Only the last theme applied matters. */
  lemma ApplyThemeLastWins(doc: Captions, first: string, second: string)
    ensures ApplyTheme(ApplyTheme(doc, first), second) == ApplyTheme(doc, second)
  {
  }

  // ---------------------------------------------------------------------------------------
  // The stylizer
  // ---------------------------------------------------------------------------------------

  class CaptionStylizer {
    var modelName: string

    constructor (name: Option<string> := None)
      ensures modelName == OrDefault(name, DEFAULT_MODEL)
    {
      modelName := OrDefault(name, DEFAULT_MODEL);
    }

    /** The emphasis words of one caption, its text tagged by `tagger`. */
    method FindEmphasisWords(caption: Caption, tagger: string -> seq<Token>) returns (emphasis: seq<string>)
      ensures emphasis == EmphasisWords(caption, tagger(caption.text))
    {
      if caption.words == [] {
        return [];
      }
      var doc := tagger(caption.text);
      var wordTexts := LowerTexts(caption.words);
      emphasis := [];
      for i := 0 to |doc|
        invariant emphasis == KeywordMatches(doc[..i], wordTexts)
      {
        var token := doc[i];
        assert doc[..i + 1][..i] == doc[..i];
        if token.pos in EMPHASIS_POS_TAGS {
          var tokenLower := Lower(token.text);
          if tokenLower in wordTexts {
            emphasis := emphasis + [token.text];
          }
        }
      }
      assert doc[..|doc|] == doc;
      if emphasis == [] {
        var lastWord := caption.words[|caption.words| - 1].text;
        var cleanWord := RStripChars(lastWord, FALLBACK_TRIM);
        if cleanWord != [] {
          emphasis := emphasis + [cleanWord];
        }
      }
      if |emphasis| > MAX_EMPHASIS {
        emphasis := emphasis[..MAX_EMPHASIS];
      }
    }

    /** One caption styled at position `index`. */
    method StylizeCaption(caption: Caption, index: nat, varyAnimations: bool, emphasizeKeywords: bool, tagger: string -> seq<Token>)
      returns (styled: Caption)
      ensures styled == Styled(caption, index, varyAnimations, emphasizeKeywords, tagger(caption.text))
    {
      var emphasis: seq<string> := [];
      if emphasizeKeywords {
        emphasis := FindEmphasisWords(caption, tagger);
      }
      var animation := caption.animation;
      if varyAnimations {
        animation := SelectAnimation(index);
      }
      var style := SelectStyle(caption, emphasis);
      styled := Caption(
        id := caption.id,
        text := caption.text,
        start := caption.start,
        end := caption.end,
        words := caption.words,
        emphasis := emphasis,
        style := style,
        animation := animation,
        position := caption.position);
    }

    /**
     * The styled document: version "1.0", the default settings, and each caption styled at
     * its own position, in order.
     */
    method Stylize(captions: seq<Caption>, tagger: string -> seq<Token>, varyAnimations: bool := true, emphasizeKeywords: bool := true)
      returns (doc: Captions)
      ensures doc.version == "1.0"
      ensures doc.settings == Some(CaptionSettings())
      ensures |doc.captions| == |captions|
      ensures forall i :: 0 <= i < |captions| ==>
        doc.captions[i] == Styled(captions[i], i, varyAnimations, emphasizeKeywords, tagger(captions[i].text))
    {
      var styledCaptions: seq<Caption> := [];
      for i := 0 to |captions|
        invariant |styledCaptions| == i
        invariant forall j :: 0 <= j < i ==>
          styledCaptions[j] == Styled(captions[j], j, varyAnimations, emphasizeKeywords, tagger(captions[j].text))
      {
        var styled := StylizeCaption(captions[i], i, varyAnimations, emphasizeKeywords, tagger);
        styledCaptions := styledCaptions + [styled];
      }
      doc := Captions(version := "1.0", captions := styledCaptions, settings := Some(CaptionSettings()));
    }
  }

  /** Styling keeps every caption's id, text, timing, words and position, and its validity. */
  lemma StylizeKeeps(captions: seq<Caption>, doc: Captions, i: nat, varyAnimations: bool, emphasizeKeywords: bool, tagger: string -> seq<Token>)
    requires |doc.captions| == |captions| && i < |captions|
    requires doc.captions[i] == Styled(captions[i], i, varyAnimations, emphasizeKeywords, tagger(captions[i].text))
    ensures var c, r := captions[i], doc.captions[i];
      && r.id == c.id && r.text == c.text && r.start == c.start && r.end == c.end
      && r.words == c.words && r.position == c.position
      && (!emphasizeKeywords ==> r.emphasis == [])
      && (!varyAnimations ==> r.animation == c.animation)
      && (ValidCaption(c) ==> ValidCaption(r))
  {
    StyledKeeps(captions[i], i, varyAnimations, emphasizeKeywords, tagger(captions[i].text));
  }
}
