/** The sticker table of the sentiment analyser (backend-rag-final/api2.py, the `sticker_map`
    of `SentimentAnalyzer.__init__`) and the two facts about it the tally relies on. */
module Stickers {

  /** The sentiment a sticker stands for; `SlightlyNegative` has no slot in the tally. */
  datatype Label = Positive | Negative | Neutral | SlightlyNegative

  datatype Sticker = Sticker(glyph: string, mood: Label)

  /** The table, in the order Python iterates it. */
  const StickerMap: seq<Sticker> := [
    Sticker("\U{1F60A}", Positive), Sticker("\U{1F604}", Positive),
    Sticker("\U{1F44D}", Positive), Sticker("\U{2764}\U{FE0F}", Positive),
    Sticker("\U{1F622}", Negative), Sticker("\U{1F620}", Negative),
    Sticker("\U{1F621}", Negative), Sticker("\U{1F44E}", Negative),
    Sticker("\U{1F610}", Neutral), Sticker("\U{1F914}", Neutral),
    Sticker("\U{1F615}", SlightlyNegative),
    Sticker("\U{2B50}", Positive), Sticker("\U{1F31F}", Positive),
    Sticker("\U{1F4AF}", Positive)
  ]

  /** The confused face. */
  const ConfusedFace: string := "\U{1F615}"

  /** The first code point of a glyph (a space for an empty one). */
  function Lead(g: string): char
  {
    if g == [] then ' ' else g[0]
  }

  /** The leading code point of every glyph of the table, in table order. */
  function Leads(): (r: seq<char>)
    ensures |r| == |StickerMap|
  {
    seq(|StickerMap|, k requires 0 <= k < |StickerMap| => Lead(StickerMap[k].glyph))
  }

  lemma LeadsValue()
    ensures Leads() == ['\U{1F60A}', '\U{1F604}', '\U{1F44D}', '\U{2764}', '\U{1F622}', '\U{1F620}', '\U{1F621}',
                        '\U{1F44E}', '\U{1F610}', '\U{1F914}', '\U{1F615}', '\U{2B50}', '\U{1F31F}', '\U{1F4AF}']
  {
  }

  lemma LeadDiffers(i: int, j: int)
    requires 0 <= i < j < |StickerMap|
    ensures Leads()[i] != Leads()[j]
  {
    LeadsValue();
  }

  /** The keys of the table are pairwise distinct. */
  lemma GlyphsDistinct()
    ensures forall i, j :: 0 <= i < j < |StickerMap| ==> StickerMap[i].glyph != StickerMap[j].glyph
  {
    forall i, j | 0 <= i < j < |StickerMap| ensures StickerMap[i].glyph != StickerMap[j].glyph {
      LeadDiffers(i, j);
    }
  }

  /** The confused face is the only sticker labelled `slightly_negative`. */
  lemma OnlyConfusedUnscored()
    ensures forall i :: 0 <= i < |StickerMap| ==> (StickerMap[i].mood == SlightlyNegative <==> StickerMap[i].glyph == ConfusedFace)
    ensures StickerMap[10].glyph == ConfusedFace
  {
    forall i | 0 <= i < |StickerMap|
      ensures StickerMap[i].mood == SlightlyNegative <==> StickerMap[i].glyph == ConfusedFace
    {
      if i == 10 {
      } else {
        LeadsValue();
        assert Leads()[i] != Lead(ConfusedFace);
      }
    }
  }
}
