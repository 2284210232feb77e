/** The escalation score of the sentiment analyser (backend-rag-final/api2.py,
    `SentimentAnalyzer._assess_risk_factors`) and the feedback record it reads. */
module Risk {
  import opened Common
  import opened JsonValues

  /** The keys of the `feedback_data` dictionary the analyser reads; `None` is an absent key. */
  datatype FeedbackData = FeedbackData(
    feedbackId: Option<string>,
    patientId: Option<string>,
    feedbackText: Option<string>,
    patientAge: Option<string>,
    department: Option<string>,
    waitTime: Option<int>,
    resolutionTime: Option<int>,
    rating: Option<int>)

  datatype RiskFactor =
    | ExcessiveWaitTime
    | LowRating
    | NegativeSentiment
    | HighEmotionalIntensity
    | EmergencyNegativeFeedback
    | ManualReviewNeeded

  datatype RiskLevel = Low | Medium | High

  datatype RiskAssessment = RiskAssessment(score: int, level: RiskLevel, factors: seq<RiskFactor>)

  const RiskScoreCap: int := 10

  /** The points each factor adds to the risk score. */
  function Weight(f: RiskFactor): nat
  {
    match f
    case ExcessiveWaitTime => 3
    case LowRating => 4
    case NegativeSentiment => 2
    case HighEmotionalIntensity => 3
    case EmergencyNegativeFeedback => 2
    case ManualReviewNeeded => 0
  }

  function WeightSum(fs: seq<RiskFactor>): nat
  {
    if fs == [] then 0 else Weight(fs[0]) + WeightSum(fs[1..])
  }

  /** `ai_analysis.get('primary_sentiment') == 'negative'` */
  predicate NegativeReply(ai: map<string, Json>)
  {
    Get(ai, "primary_sentiment", JNull) == JStr("negative")
  }

  /** The value `emotional_intensity` is compared with, 0 when absent. */
  function Intensity(ai: map<string, Json>): Json
  {
    Get(ai, "emotional_intensity", JInt(0))
  }

  /** The outcome of the five checks of the assessment. */
  datatype Signals = Signals(longWait: bool, lowRating: bool, negative: bool, intense: bool, emergencyNegative: bool)

  predicate Raised(sg: Signals, f: RiskFactor)
  {
    match f
    case ExcessiveWaitTime => sg.longWait
    case LowRating => sg.lowRating
    case NegativeSentiment => sg.negative
    case HighEmotionalIntensity => sg.intense
    case EmergencyNegativeFeedback => sg.emergencyNegative
    case ManualReviewNeeded => false
  }

  /** The position of each check in the assessment; the fallback's factor comes after all. */
  function Rank(f: RiskFactor): nat
  {
    match f
    case ExcessiveWaitTime => 0
    case LowRating => 1
    case NegativeSentiment => 2
    case HighEmotionalIntensity => 3
    case EmergencyNegativeFeedback => 4
    case ManualReviewNeeded => 5
  }

  function Ranked(i: nat): (f: RiskFactor)
    requires i < 5
    ensures Rank(f) == i
  {
    if i == 0 then ExcessiveWaitTime
    else if i == 1 then LowRating
    else if i == 2 then NegativeSentiment
    else if i == 3 then HighEmotionalIntensity
    else EmergencyNegativeFeedback
  }

  /** The factors raised by the checks from position `i` on, in check order. */
  function RaisedFrom(i: nat, sg: Signals): (r: seq<RiskFactor>)
    requires i <= 5
    ensures forall x :: x in r <==> Raised(sg, x) && i <= Rank(x)
    ensures ManualReviewNeeded !in r
    ensures forall j, k :: 0 <= j < k < |r| ==> Rank(r[j]) < Rank(r[k])
    ensures WeightSum(r) == RaisedWeightFrom(i, sg)
    decreases 5 - i, sg
  {
    if i == 5 then []
    else if Raised(sg, Ranked(i)) then [Ranked(i)] + RaisedFrom(i + 1, sg)
    else RaisedFrom(i + 1, sg)
  }

  /** The running total of `risk_score` over the checks from position `i` on. */
  function RaisedWeightFrom(i: nat, sg: Signals): nat
    requires i <= 5
    decreases 5 - i, sg
  {
    if i == 5 then 0
    else (if Raised(sg, Ranked(i)) then Weight(Ranked(i)) else 0) + RaisedWeightFrom(i + 1, sg)
  }

  /** The score, level and factor list for the outcome of the checks: the score is the
      running total, capped; the level reads the uncapped total. */
  function Assess(sg: Signals): (ra: RiskAssessment)
    ensures forall x :: x in ra.factors <==> Raised(sg, x)
    ensures ManualReviewNeeded !in ra.factors
    ensures forall j, k :: 0 <= j < k < |ra.factors| ==> Rank(ra.factors[j]) < Rank(ra.factors[k])
    ensures ra.score == Min(WeightSum(ra.factors), RiskScoreCap)
    ensures ra.level == High <==> WeightSum(ra.factors) >= 7
    ensures ra.level == Medium <==> 4 <= WeightSum(ra.factors) < 7
    ensures ra.level == Low <==> WeightSum(ra.factors) < 4
  {
    var score := RaisedWeightFrom(0, sg);
    RiskAssessment(Min(score, RiskScoreCap),
                   if score >= 7 then High else if score >= 4 then Medium else Low,
                   RaisedFrom(0, sg))
  }

  /** The outcome of the checks on this feedback and reply; the intensity comparison raises on
      a non-number. */
  function Checks(fd: FeedbackData, ai: map<string, Json>): (r: Result<Signals, TypeError>)
    ensures r.Err? <==> !IsNumber(Intensity(ai))
    ensures r.Ok? ==> r.value.longWait == (fd.waitTime.UnwrapOr(0) > 60)
    ensures r.Ok? ==> r.value.lowRating == (fd.rating.UnwrapOr(5) <= 2)
    ensures r.Ok? ==> r.value.negative == NegativeReply(ai)
    ensures r.Ok? ==> r.value.intense == (AtLeast(Intensity(ai), 8) == Ok(true))
    ensures r.Ok? ==> r.value.emergencyNegative == (fd.department == Some("Emergency") && NegativeReply(ai))
  {
    match AtLeast(Intensity(ai), 8)
    case Err(e) => Err(e)
    case Ok(intense) =>
      Ok(Signals(fd.waitTime.UnwrapOr(0) > 60, fd.rating.UnwrapOr(5) <= 2, NegativeReply(ai), intense,
                 fd.department == Some("Emergency") && NegativeReply(ai)))
  }

  /** `_assess_risk_factors` */
  function AssessRisk(fd: FeedbackData, ai: map<string, Json>): (r: Result<RiskAssessment, TypeError>)
    ensures r.Err? <==> !IsNumber(Intensity(ai))
    ensures r.Ok? ==> FactorsAsListed(fd, ai, r.value.factors)
    ensures r.Ok? ==>
              var ra := r.value;
              && ra.score == Min(WeightSum(ra.factors), RiskScoreCap)
              && (ra.level == High <==> WeightSum(ra.factors) >= 7)
              && (ra.level == Medium <==> 4 <= WeightSum(ra.factors) < 7)
              && (ra.level == Low <==> WeightSum(ra.factors) < 4)
  {
    match Checks(fd, ai)
    case Err(e) => Err(e)
    case Ok(sg) =>
      ChecksListed(fd, ai, sg);
      Ok(Assess(sg))
  }

  lemma ChecksListed(fd: FeedbackData, ai: map<string, Json>, sg: Signals)
    requires Checks(fd, ai) == Ok(sg)
    ensures FactorsAsListed(fd, ai, Assess(sg).factors)
  {
    AssessListed(sg);
  }

  lemma AssessListed(sg: Signals)
    ensures ExcessiveWaitTime in Assess(sg).factors <==> sg.longWait
    ensures LowRating in Assess(sg).factors <==> sg.lowRating
    ensures NegativeSentiment in Assess(sg).factors <==> sg.negative
    ensures HighEmotionalIntensity in Assess(sg).factors <==> sg.intense
    ensures EmergencyNegativeFeedback in Assess(sg).factors <==> sg.emergencyNegative
  {
  }

  /** Each factor is listed exactly when its condition holds, in the order of the checks. */
  predicate FactorsAsListed(fd: FeedbackData, ai: map<string, Json>, fs: seq<RiskFactor>)
  {
    && (ExcessiveWaitTime in fs <==> fd.waitTime.UnwrapOr(0) > 60)
    && (LowRating in fs <==> fd.rating.UnwrapOr(5) <= 2)
    && (NegativeSentiment in fs <==> NegativeReply(ai))
    && (HighEmotionalIntensity in fs <==> AtLeast(Intensity(ai), 8) == Ok(true))
    && (EmergencyNegativeFeedback in fs <==> fd.department == Some("Emergency") && NegativeReply(ai))
    && ManualReviewNeeded !in fs
    && (forall j, k :: 0 <= j < k < |fs| ==> Rank(fs[j]) < Rank(fs[k]))
  }

  /** The emergency factor never appears without the negative-sentiment factor, and every
      listed factor is one of the five the assessment can raise. */
  lemma EmergencyImpliesNegative(fd: FeedbackData, ai: map<string, Json>)
    requires AssessRisk(fd, ai).Ok?
    ensures EmergencyNegativeFeedback in AssessRisk(fd, ai).value.factors ==> NegativeSentiment in AssessRisk(fd, ai).value.factors
    ensures AssessRisk(fd, ai).value.score <= RiskScoreCap
  {
  }

  /** When all five checks fire the points add up to 14: the score is capped at 10 while the
      level reads the uncapped sum. */
  lemma AllFactorsCapped(fd: FeedbackData, ai: map<string, Json>)
    requires fd.waitTime.UnwrapOr(0) > 60 && fd.rating.UnwrapOr(5) <= 2
    requires fd.department == Some("Emergency") && NegativeReply(ai)
    requires AtLeast(Intensity(ai), 8) == Ok(true)
    ensures AssessRisk(fd, ai).Ok?
    ensures WeightSum(AssessRisk(fd, ai).value.factors) == 14
    ensures AssessRisk(fd, ai).value.score == RiskScoreCap && AssessRisk(fd, ai).value.level == High
  {
    var all := Signals(true, true, true, true, true);
    assert Checks(fd, ai) == Ok(all);
    assert RaisedWeightFrom(4, all) == 2;
    assert RaisedWeightFrom(3, all) == 5;
    assert RaisedWeightFrom(2, all) == 7;
    assert RaisedWeightFrom(1, all) == 11;
    assert RaisedWeightFrom(0, all) == 14;
  }
}
