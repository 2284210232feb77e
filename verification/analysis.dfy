/** How `SentimentAnalyzer.analyze_feedback_sentiment` (backend-rag-final/api2.py) puts the
    sticker tally, the language-model reply, the risk score and the recommendations together,
    and the fixed analysis it falls back to. The model call is an input: it raised, or it
    replied with text in which a JSON object was or was not found. */
module Analysis {
  import opened Common
  import opened JsonValues
  import opened StickerTally
  import opened Risk
  import opened Recommendations


  datatype ContextualData = ContextualData(patientAge: string, department: string, waitTime: int, resolutionTime: int, rating: int)

  /** The dictionary `analyze_feedback_sentiment` returns (without its clock reading). */
  datatype Analysis = Analysis(
    feedbackId: string,
    patientId: string,
    stickers: StickerAnalysis,
    ai: map<string, Json>,
    context: ContextualData,
    risk: RiskAssessment,
    recommendations: seq<string>)

  /** What the language model did: it raised, or it replied and a JSON object was (or was
      not) found in the reply. */
  datatype LlmReply = LlmRaised | LlmReplied(parsed: Option<map<string, Json>>)

  /** The dictionary `_parse_ai_response` falls back to when no object can be decoded. */
  const ParseFallbackAi: map<string, Json> := map[
    "primary_sentiment" := JStr("neutral"),
    "confidence_score" := JInt(50),
    "emotional_intensity" := JInt(5),
    "key_themes" := JArr([JStr("general_feedback")]),
    "contextual_factors" := JStr("Unable to parse detailed analysis"),
    "patient_behavior_analysis" := JStr("Standard patient feedback pattern"),
    "actionable_insights" := JArr([JStr("Review feedback manually")]),
    "urgency_level" := JInt(2),
    "sentiment_explanation" := JStr("Automated analysis failed, manual review needed"),
    "department_specific_insights" := JStr("Standard department protocols apply")
  ]

  /** The `ai_analysis` of `_fallback_analysis`. */
  const FallbackAi: map<string, Json> := map[
    "primary_sentiment" := JStr("neutral"),
    "confidence_score" := JInt(30),
    "emotional_intensity" := JInt(5),
    "key_themes" := JArr([JStr("general_feedback")]),
    "contextual_factors" := JStr("Automated analysis unavailable"),
    "patient_behavior_analysis" := JStr("Standard patient feedback"),
    "actionable_insights" := JArr([JStr("Manual review required")]),
    "urgency_level" := JInt(2),
    "sentiment_explanation" := JStr("Fallback analysis used"),
    "department_specific_insights" := JStr("Standard protocols apply")
  ]

  const FallbackRisk: RiskAssessment := RiskAssessment(2, Low, [ManualReviewNeeded])

  /** `_parse_ai_response`: the decoded object, or the fixed fallback. */
  function ParseAiResponse(parsed: Option<map<string, Json>>): map<string, Json>
  {
    parsed.UnwrapOr(ParseFallbackAi)
  }

  function ContextOf(fd: FeedbackData): ContextualData
  {
    ContextualData(fd.patientAge.UnwrapOr("unknown"), fd.department.UnwrapOr("unknown"),
                   fd.waitTime.UnwrapOr(0), fd.resolutionTime.UnwrapOr(0), fd.rating.UnwrapOr(0))
  }

  /** `_fallback_analysis` */
  function FallbackAnalysis(fd: FeedbackData, stickers: StickerAnalysis): (r: Analysis)
    ensures r.risk == RiskAssessment(2, Low, [ManualReviewNeeded]) && r.ai == FallbackAi
    ensures r.recommendations == ["Manual sentiment analysis required"]
    ensures r.feedbackId == fd.feedbackId.UnwrapOr("") && r.patientId == fd.patientId.UnwrapOr("")
    ensures r.stickers == stickers && r.context == ContextOf(fd)
  {
    Analysis(fd.feedbackId.UnwrapOr(""), fd.patientId.UnwrapOr(""), stickers, FallbackAi, ContextOf(fd),
             FallbackRisk, ["Manual sentiment analysis required"])
  }

  /** `analyze_feedback_sentiment`: the sticker tally runs before the guarded block, so its
      error escapes; a model that raised or a risk comparison that raised yields the fallback. */
  function AnalyzeFeedbackSentiment(fd: FeedbackData, reply: LlmReply): (r: Result<Analysis, KeyError>)
    ensures r.Err? <==> ExtractStickerSentiment(fd.feedbackText.UnwrapOr("")).Err?
    ensures r.Ok? ==> r.value.stickers == ExtractStickerSentiment(fd.feedbackText.UnwrapOr("")).value
    ensures r.Ok? ==> r.value.context == ContextOf(fd)
    ensures r.Ok? ==>
              r.value.feedbackId == fd.feedbackId.UnwrapOr("") && r.value.patientId == fd.patientId.UnwrapOr("")
    ensures r.Ok? ==>
              (ManualReviewNeeded in r.value.risk.factors <==>
                 reply.LlmRaised? || AssessRisk(fd, ParseAiResponse(reply.parsed)).Err?)
    ensures r.Ok? && (reply.LlmRaised? || AssessRisk(fd, ParseAiResponse(reply.parsed)).Err?) ==>
              r.value == FallbackAnalysis(fd, r.value.stickers)
    ensures r.Ok? && reply.LlmReplied? && AssessRisk(fd, ParseAiResponse(reply.parsed)).Ok? ==>
              && r.value.ai == ParseAiResponse(reply.parsed)
              && r.value.risk == AssessRisk(fd, r.value.ai).value
              && r.value.recommendations == GenerateRecommendations(fd, r.value.ai)
  {
    match ExtractStickerSentiment(fd.feedbackText.UnwrapOr(""))
    case Err(e) => Err(e)
    case Ok(stickers) =>
      if reply.LlmRaised? then Ok(FallbackAnalysis(fd, stickers))
      else
        var ai := ParseAiResponse(reply.parsed);
        match AssessRisk(fd, ai)
        case Err(_) => Ok(FallbackAnalysis(fd, stickers))
        case Ok(risk) =>
          Ok(Analysis(fd.feedbackId.UnwrapOr(""), fd.patientId.UnwrapOr(""), stickers, ai, ContextOf(fd),
                      risk, GenerateRecommendations(fd, ai)))
  }

  lemma ParseFallbackReadings()
    ensures Intensity(ParseFallbackAi) == JInt(5)
    ensures !NegativeReply(ParseFallbackAi)
    ensures Sentiment(ParseFallbackAi) == JStr("neutral")
  {
  }

  /** Scored from the parse fallback, only the feedback's own wait time and rating can raise a
      factor. */
  lemma ParseFallbackRaisesFeedbackOnly(fd: FeedbackData)
    ensures AssessRisk(fd, ParseFallbackAi).Ok?
    ensures forall f :: f in AssessRisk(fd, ParseFallbackAi).value.factors ==> f == ExcessiveWaitTime || f == LowRating
  {
    ParseFallbackReadings();
    var fs := AssessRisk(fd, ParseFallbackAi).value.factors;
    assert FactorsAsListed(fd, ParseFallbackAi, fs);
    assert AtLeast(Intensity(ParseFallbackAi), 8) == Ok(false);
    assert NegativeSentiment !in fs && HighEmotionalIntensity !in fs && EmergencyNegativeFeedback !in fs;
  }

  /** A reply without a decodable object is scored from the parse fallback: intensity 5 and
      neutral sentiment, so only the feedback's own wait time and rating can raise risk, and
      no sentiment-driven recommendation is made. */
  lemma UnparsableReplyScoresFeedbackOnly(fd: FeedbackData)
    requires ExtractStickerSentiment(fd.feedbackText.UnwrapOr("")).Ok?
    ensures var r := AnalyzeFeedbackSentiment(fd, LlmReplied(None));
            && r.Ok?
            && r.value.ai == ParseFallbackAi
            && (forall f :: f in r.value.risk.factors ==> f == ExcessiveWaitTime || f == LowRating)
            && FollowUp !in r.value.recommendations && SharePraise !in r.value.recommendations
  {
    ParseFallbackRaisesFeedbackOnly(fd);
    ParseFallbackReadings();
    SentimentItemsExclusive(fd, ParseFallbackAi);
    var r := AnalyzeFeedbackSentiment(fd, LlmReplied(None));
    assert r.value.risk == AssessRisk(fd, ParseFallbackAi).value;
    assert r.value.recommendations == GenerateRecommendations(fd, ParseFallbackAi);
  }

  /** The two places that read the rating disagree about a missing one: the contextual data
      reports 0 while the risk assessment treats it as 5, so it never counts as low. This
      shows only on a direct call: the `/api/sentiment` route fills a missing rating in with
      0 before calling, which the assessment then reads as a low rating. */
  lemma MissingRatingDefaultsDisagree(fd: FeedbackData, ai: map<string, Json>)
    requires fd.rating.None? && IsNumber(Intensity(ai))
    requires ExtractStickerSentiment(fd.feedbackText.UnwrapOr("")).Ok?
    ensures var r := AnalyzeFeedbackSentiment(fd, LlmReplied(Some(ai)));
            r.Ok? && r.value.context.rating == 0 && LowRating !in r.value.risk.factors
  {
  }
}
