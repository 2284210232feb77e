/** The sticker tally of the sentiment analyser (backend-rag-final/api2.py,
    `SentimentAnalyzer.extract_sticker_sentiment`): which stickers of the table occur in the
    text, how many of each sentiment, and the majority vote. */
module StickerTally {
  import opened Common
  import opened Text
  import opened Stickers

  /** The tally dictionary has only these three keys. */
  datatype Scores = Scores(positive: nat, negative: nat, neutral: nat)

  datatype StickerAnalysis = StickerAnalysis(sentiment: Label, found: seq<string>, scores: Option<Scores>)

  /** `sentiment_scores[sentiment] += 1` on a label that is not a key. */
  datatype KeyError = KeyError(missing: Label)

  function Glyphs(entries: seq<Sticker>): (r: seq<string>)
    ensures |r| == |entries| && forall i :: 0 <= i < |r| ==> r[i] == entries[i].glyph
  {
    seq(|entries|, i requires 0 <= i < |entries| => entries[i].glyph)
  }

  /** Reference: the entries of the table that occur in the text, in table order. */
  function FoundIn(entries: seq<Sticker>, text: string): seq<Sticker>
    decreases entries, text
  {
    if entries == [] then []
    else if Contains(text, entries[0].glyph) then [entries[0]] + FoundIn(entries[1..], text)
    else FoundIn(entries[1..], text)
  }

  /** Reference: how many of `found` carry `mood`. */
  function CountLabel(found: seq<Sticker>, mood: Label): nat
  {
    if found == [] then 0
    else (if found[0].mood == mood then 1 else 0) + CountLabel(found[1..], mood)
  }

  function Bump(sc: Scores, mood: Label): Scores
    requires mood != SlightlyNegative
  {
    match mood
    case Positive => sc.(positive := sc.positive + 1)
    case Negative => sc.(negative := sc.negative + 1)
    case Neutral => sc.(neutral := sc.neutral + 1)
  }

  /** The loop over the table: records each sticker found and bumps its tally slot. */
  function Scan(entries: seq<Sticker>, text: string): (r: Result<(seq<string>, Scores), KeyError>)
    ensures r.Err? <==> SlightlyNegative in Labels(FoundIn(entries, text))
    ensures r.Ok? ==> r.value.0 == Glyphs(FoundIn(entries, text))
    ensures r.Ok? ==> r.value.1 == Scores(CountLabel(FoundIn(entries, text), Positive),
                                          CountLabel(FoundIn(entries, text), Negative),
                                          CountLabel(FoundIn(entries, text), Neutral))
    decreases entries, text
  {
    if entries == [] then Ok(([], Scores(0, 0, 0)))
    else if !Contains(text, entries[0].glyph) then Scan(entries[1..], text)
    else if entries[0].mood == SlightlyNegative then
      assert Labels(FoundIn(entries, text))[0] == SlightlyNegative;
      Err(KeyError(SlightlyNegative))
    else
      assert Labels(FoundIn(entries, text)) == [entries[0].mood] + Labels(FoundIn(entries[1..], text));
      match Scan(entries[1..], text)
      case Err(e) => Err(e)
      case Ok((found, sc)) => Ok(([entries[0].glyph] + found, Bump(sc, entries[0].mood)))
  }

  function Labels(entries: seq<Sticker>): (r: seq<Label>)
    ensures |r| == |entries| && forall i :: 0 <= i < |r| ==> r[i] == entries[i].mood
  {
    seq(|entries|, i requires 0 <= i < |entries| => entries[i].mood)
  }

  /** Majority vote between positive and negative stickers; neutral ones never decide. */
  function Majority(sc: Scores): (l: Label)
    ensures l == Positive <==> sc.positive > sc.negative
    ensures l == Negative <==> sc.negative > sc.positive
    ensures l == Neutral <==> sc.positive == sc.negative
  {
    if sc.positive > sc.negative then Positive
    else if sc.negative > sc.positive then Negative
    else Neutral
  }

  /** `extract_sticker_sentiment` */
  function ExtractStickerSentiment(text: string): (r: Result<StickerAnalysis, KeyError>)
    ensures text == "" ==> r == Ok(StickerAnalysis(Neutral, [], None))
    ensures text != "" ==> (r.Err? <==> SlightlyNegative in Labels(FoundIn(StickerMap, text)))
    ensures text != "" && r.Ok? ==>
              var found := FoundIn(StickerMap, text);
              && r.value.found == Glyphs(found)
              && r.value.scores == Some(Scores(CountLabel(found, Positive), CountLabel(found, Negative), CountLabel(found, Neutral)))
              && (r.value.sentiment == Positive <==> CountLabel(found, Positive) > CountLabel(found, Negative))
              && (r.value.sentiment == Negative <==> CountLabel(found, Negative) > CountLabel(found, Positive))
              && (r.value.sentiment == Neutral <==> CountLabel(found, Positive) == CountLabel(found, Negative))
  {
    if text == "" then Ok(StickerAnalysis(Neutral, [], None))
    else match Scan(StickerMap, text)
      case Err(e) => Err(e)
      case Ok((found, sc)) => Ok(StickerAnalysis(Majority(sc), found, Some(sc)))
  }

  /** Every entry labelled `slightly_negative` is the confused face and vice versa. */
  predicate OnlyConfusedUnscoredIn(entries: seq<Sticker>)
  {
    forall i :: 0 <= i < |entries| ==> (entries[i].mood == SlightlyNegative <==> entries[i].glyph == ConfusedFace)
  }

  lemma {:induction false} SlightlyNegativeFound(entries: seq<Sticker>, text: string)
    requires OnlyConfusedUnscoredIn(entries)
    ensures SlightlyNegative in Labels(FoundIn(entries, text)) <==> ConfusedFace in Glyphs(entries) && Contains(text, ConfusedFace)
  {
    if entries != [] {
      SlightlyNegativeFound(entries[1..], text);
      assert Glyphs(entries) == [entries[0].glyph] + Glyphs(entries[1..]);
      if Contains(text, entries[0].glyph) {
        assert Labels(FoundIn(entries, text)) == [entries[0].mood] + Labels(FoundIn(entries[1..], text));
      }
    }
  }

  /** The tally fails exactly on a non-empty text that contains the confused face. */
  lemma ConfusedFaceIsFatal(text: string)
    ensures ExtractStickerSentiment(text).Err? <==> text != "" && Contains(text, ConfusedFace)
  {
    OnlyConfusedUnscored();
    assert Glyphs(StickerMap)[10] == ConfusedFace;
    SlightlyNegativeFound(StickerMap, text);
  }

  lemma StickerGlyphsDistinct()
    ensures NoDup(Glyphs(StickerMap))
  {
    GlyphsDistinct();
  }

  lemma {:induction false} FoundInIsSubsequence(entries: seq<Sticker>, text: string)
    ensures Subsequence(Glyphs(FoundIn(entries, text)), Glyphs(entries))
  {
    if entries != [] {
      FoundInIsSubsequence(entries[1..], text);
      assert Glyphs(entries)[1..] == Glyphs(entries[1..]);
      if Contains(text, entries[0].glyph) {
        assert Glyphs(FoundIn(entries, text))[1..] == Glyphs(FoundIn(entries[1..], text));
      }
    }
  }

  /** A subsequence of a duplicate-free sequence is duplicate-free. */
  lemma {:induction false} SubsequenceNoDup<T>(sub: seq<T>, s: seq<T>)
    requires Subsequence(sub, s) && NoDup(s)
    ensures NoDup(sub) && forall x :: x in sub ==> x in s
    decreases |s|
  {
    if sub != [] {
      assert NoDup(s[1..]) by {
        forall i, j | 0 <= i < j < |s[1..]| ensures s[1..][i] != s[1..][j] {
          assert s[1..][i] == s[i + 1] && s[1..][j] == s[j + 1];
        }
      }
      if sub[0] == s[0] && Subsequence(sub[1..], s[1..]) {
        SubsequenceNoDup(sub[1..], s[1..]);
        assert sub == [sub[0]] + sub[1..];
        forall j | 0 < j < |sub| ensures sub[0] != sub[j] {
          assert sub[j] == sub[1..][j - 1];
          assert sub[j] in s[1..];
        }
      } else {
        SubsequenceNoDup(sub, s[1..]);
      }
    }
  }

  /** The reported stickers occur in the text, come in table order and repeat none. */
  lemma FoundStickersInTableOrder(text: string)
    requires text != "" && ExtractStickerSentiment(text).Ok?
    ensures var found := ExtractStickerSentiment(text).value.found;
            && Subsequence(found, Glyphs(StickerMap)) && NoDup(found)
            && forall g :: g in found ==> Contains(text, g)
  {
    FoundInIsSubsequence(StickerMap, text);
    StickerGlyphsDistinct();
    SubsequenceNoDup(Glyphs(FoundIn(StickerMap, text)), Glyphs(StickerMap));
    FoundOccurs(StickerMap, text);
  }

  lemma {:induction false} FoundOccurs(entries: seq<Sticker>, text: string)
    ensures forall g :: g in Glyphs(FoundIn(entries, text)) ==> Contains(text, g)
  {
    if entries != [] {
      FoundOccurs(entries[1..], text);
      if Contains(text, entries[0].glyph) {
        assert Glyphs(FoundIn(entries, text)) == [entries[0].glyph] + Glyphs(FoundIn(entries[1..], text));
      }
    }
  }
}
