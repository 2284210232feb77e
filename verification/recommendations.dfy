/** The recommendation list of the sentiment analyser (backend-rag-final/api2.py,
    `SentimentAnalyzer._generate_recommendations`). */
module Recommendations {
  import opened Common
  import opened JsonValues
  import opened Risk

  const WaitItem2: string := "Implement better patient communication about delays"
  const FollowUp: string := "Schedule follow-up contact with patient"
  const TrainingReview: string := "Review staff training needs"
  const SharePraise: string := "Share positive feedback with staff"
  const BestPractices: string := "Identify best practices to replicate"

  /** `f"Address wait time concerns in {department}"` */
  function WaitItem1(department: string): string
  {
    "Address wait time concerns in " + department
  }

  /** The one item a listed department adds. */
  function DepartmentItem(department: string): Option<string>
  {
    if department == "Emergency" then Some("Review triage process efficiency")
    else if department == "Pediatrics" then Some("Enhance child-friendly environment")
    else if department == "Oncology" then Some("Ensure compassionate care protocols")
    else None
  }

  function Sentiment(ai: map<string, Json>): Json
  {
    Get(ai, "primary_sentiment", JStr("neutral"))
  }

  /** `_generate_recommendations` */
  function GenerateRecommendations(fd: FeedbackData, ai: map<string, Json>): (r: seq<string>)
    ensures |r| <= 5
    ensures fd.waitTime.UnwrapOr(0) > 45 ==>
              |r| >= 2 && r[0] == WaitItem1(fd.department.UnwrapOr("")) && r[1] == WaitItem2
    ensures fd.waitTime.UnwrapOr(0) <= 45 ==> WaitItem2 !in r
    ensures DepartmentItem(fd.department.UnwrapOr("")).Some? <==>
              r != [] && Some(r[|r| - 1]) == DepartmentItem(fd.department.UnwrapOr(""))
    ensures r == [] <==>
              && fd.waitTime.UnwrapOr(0) <= 45
              && Sentiment(ai) != JStr("negative") && Sentiment(ai) != JStr("positive")
              && DepartmentItem(fd.department.UnwrapOr("")).None?
  {
    var department := fd.department.UnwrapOr("");
    var sentiment := Sentiment(ai);
    var wait := if fd.waitTime.UnwrapOr(0) > 45 then [WaitItem1(department), WaitItem2] else [];
    var mood := if sentiment == JStr("negative") then [FollowUp, TrainingReview]
                else if sentiment == JStr("positive") then [SharePraise, BestPractices]
                else [];
    var dept := match DepartmentItem(department) case Some(item) => [item] case None => [];
    wait + mood + dept
  }

  /** The follow-up and training items appear exactly on a negative reply and the praise and
      best-practice items exactly on a positive one, so the two pairs never mix. */
  lemma SentimentItemsExclusive(fd: FeedbackData, ai: map<string, Json>)
    ensures FollowUp in GenerateRecommendations(fd, ai) <==> Sentiment(ai) == JStr("negative")
    ensures TrainingReview in GenerateRecommendations(fd, ai) <==> Sentiment(ai) == JStr("negative")
    ensures SharePraise in GenerateRecommendations(fd, ai) <==> Sentiment(ai) == JStr("positive")
    ensures BestPractices in GenerateRecommendations(fd, ai) <==> Sentiment(ai) == JStr("positive")
    ensures !(FollowUp in GenerateRecommendations(fd, ai) && SharePraise in GenerateRecommendations(fd, ai))
  {
    var department := fd.department.UnwrapOr("");
    SentimentItemsOnlyThere(department);
    var wait := if fd.waitTime.UnwrapOr(0) > 45 then [WaitItem1(department), WaitItem2] else [];
    var mood := if Sentiment(ai) == JStr("negative") then [FollowUp, TrainingReview]
                else if Sentiment(ai) == JStr("positive") then [SharePraise, BestPractices]
                else [];
    var dept := match DepartmentItem(department) case Some(item) => [item] case None => [];
    assert GenerateRecommendations(fd, ai) == wait + mood + dept;
    forall x | x in [FollowUp, TrainingReview, SharePraise, BestPractices]
      ensures x in GenerateRecommendations(fd, ai) <==> x in mood
    {
      assert x !in wait && x !in dept;
    }
  }

  /** None of the four sentiment items is a wait item or a department item. */
  lemma SentimentItemsOnlyThere(department: string)
    ensures forall x :: x in [FollowUp, TrainingReview, SharePraise, BestPractices] ==>
              && x != WaitItem1(department) && x != WaitItem2
              && (DepartmentItem(department).Some? ==> x != DepartmentItem(department).value)
    ensures FollowUp != TrainingReview && FollowUp != SharePraise && FollowUp != BestPractices
    ensures TrainingReview != SharePraise && TrainingReview != BestPractices && SharePraise != BestPractices
  {
    assert WaitItem1(department)[0] == 'A';
    assert SharePraise[33] == 'f' && "Enhance child-friendly environment"[33] == 't';
  }
}
