/** The feedback store behind the FastAPI routes (backend/app/routes.py): feedback rows
    keyed by their SERIAL id and the `ai_analysis` rows in insertion order. Calls are
    taken one at a time; the database clock and the id counter are explicit. */
module FeedbackStore {
  import opened Common
  import opened Text
  import opened JsonValues
  import opened Validation
  import Sorting

  datatype Feedback = Feedback(id: int, patientId: string, text: string, note: int, emoji: Option<string>, timestamp: int)

  /** One `ai_analysis` row; nothing in the table definition stops two rows from naming
      the same feedback. */
  datatype AnalysisRow = AnalysisRow(feedbackId: int, analysis: Json, timestamp: int)

  /** `nextId` is the value the `feedbacks.id` sequence hands out next. */
  datatype Store = Store(feedbacks: map<int, Feedback>, analyses: seq<AnalysisRow>, nextId: int)

  const EmptyStore: Store := Store(map[], [], 1)

  predicate HasAnalysis(rows: seq<AnalysisRow>, id: int)
  {
    exists i :: 0 <= i < |rows| && rows[i].feedbackId == id
  }

  predicate AtMostOneAnalysisEach(rows: seq<AnalysisRow>)
  {
    forall i, j :: 0 <= i < j < |rows| ==> rows[i].feedbackId != rows[j].feedbackId
  }

  /** Rows are stored under their own id, ids come from the sequence, every analysis
      names an existing feedback (the foreign key) and no feedback has two analyses. */
  predicate Valid(s: Store)
  {
    && s.nextId >= 1
    && (forall k :: k in s.feedbacks ==> 1 <= k < s.nextId && s.feedbacks[k].id == k)
    && (forall i :: 0 <= i < |s.analyses| ==> s.analyses[i].feedbackId in s.feedbacks)
    && AtMostOneAnalysisEach(s.analyses)
  }

  datatype ApiError =
    | NotFound             // 404
    | AnalysisExists       // 400
    | Unprocessable(violations: seq<Violation>)   // 422, raised before the handler runs

  /** `feedback.emoji.strip() if feedback.emoji else None`: an empty emoji is stored as
      null, a whitespace-only one as the empty string. */
  function StoredEmoji(e: Option<string>): (r: Option<string>)
    ensures r.None? <==> e.None? || e.value == ""
    ensures r.Some? ==> r.value == Strip(e.value)
  {
    match e
    case None => None
    case Some(x) => if x == "" then None else Some(Strip(x))
  }

  datatype Created = Created(feedbackId: int, data: Feedback)

  /** `create_feedback`: inserts the stripped fields under the next id with the
      database's current time. */
  function CreateFeedback(s: Store, f: FeedbackIn, now: int): (r: (Store, Created))
    ensures r.1.feedbackId == r.1.data.id == s.nextId
    ensures r.1.data.patientId == Strip(f.patientId) && r.1.data.text == Strip(f.text)
    ensures r.1.data.note == f.note && r.1.data.timestamp == now
    ensures f.emoji.None? ==> r.1.data.emoji.None?
    ensures f.emoji.Some? && f.emoji.value != "" ==> r.1.data.emoji == Some(Strip(f.emoji.value))
    ensures r.1.data.emoji == StoredEmoji(f.emoji)
    ensures r.0.feedbacks == s.feedbacks[s.nextId := r.1.data]
    ensures r.0.analyses == s.analyses && r.0.nextId == s.nextId + 1
    ensures Valid(s) ==> Valid(r.0)
  {
    var row := Feedback(s.nextId, Strip(f.patientId), Strip(f.text), f.note, StoredEmoji(f.emoji), now);
    (Store(s.feedbacks[s.nextId := row], s.analyses, s.nextId + 1), Created(s.nextId, row))
  }

  /** `POST /feedback` as a whole: the body is validated on the raw strings first, and
      only a valid body reaches `create_feedback`. */
  function PostFeedback(s: Store, f: FeedbackIn, now: int): (r: (Store, Result<Created, ApiError>))
    ensures !ValidFeedbackIn(f) ==> r == (s, Err(Unprocessable(FeedbackViolations(f))))
    ensures ValidFeedbackIn(f) ==> r.1.Ok? && (r.0, r.1.value) == CreateFeedback(s, f, now)
  {
    if !ValidFeedbackIn(f) then (s, Err(Unprocessable(FeedbackViolations(f))))
    else
      var (s', c) := CreateFeedback(s, f, now);
      (s', Ok(c))
  }

  lemma StripExample()
    ensures Strip("good ") == "good"
  {
    var s := "good ";
    assert s[0] == 'g' && !IsSpace(s[0]);
    assert TrimStart(s) == s;
    assert s[..|s| - 1] == "good" && IsSpace(s[|s| - 1]);
    assert "good"[3] == 'd' && !IsSpace("good"[3]);
    assert TrimEnd("good") == "good";
    assert TrimEnd(s) == "good";
  }

  /** Validation runs before stripping, so a text that passes the five-character minimum
      can be stored shorter than that. */
  lemma StoredTextCanBeShorterThanMinimum(s: Store, now: int)
    ensures var f := FeedbackIn("P001", "good ", 3, None);
            ValidFeedbackIn(f) && PostFeedback(s, f, now).1.Ok?
            && |PostFeedback(s, f, now).1.value.data.text| < TextMinLength
  {
    StripExample();
  }

  datatype AnalysisView = AnalysisView(data: Json, timestamp: int)
  datatype FeedbackView = FeedbackView(feedback: Feedback, analysis: Option<AnalysisView>)

  /** `fetchrow` on `ai_analysis WHERE feedback_id = $1`: some row for that feedback. */
  function FirstAnalysisFor(rows: seq<AnalysisRow>, id: int): (r: Option<AnalysisRow>)
    ensures r.None? <==> !HasAnalysis(rows, id)
    ensures r.Some? ==> r.value in rows && r.value.feedbackId == id
  {
    if rows == [] then None
    else if rows[0].feedbackId == id then Some(rows[0])
    else
      var r := FirstAnalysisFor(rows[1..], id);
      assert forall i :: 0 < i < |rows| ==> rows[i] == rows[1..][i - 1];
      r
  }

  /** `get_feedback_with_analysis` */
  function GetFeedbackWithAnalysis(s: Store, id: int): (r: Result<FeedbackView, ApiError>)
    ensures id !in s.feedbacks <==> r == Err(NotFound)
    ensures r.Ok? ==> r.value.feedback == s.feedbacks[id]
    ensures r.Ok? ==> (r.value.analysis.None? <==> !HasAnalysis(s.analyses, id))
    ensures r.Ok? && r.value.analysis.Some? ==>
              exists i :: 0 <= i < |s.analyses| && s.analyses[i].feedbackId == id
                          && r.value.analysis.value == AnalysisView(s.analyses[i].analysis, s.analyses[i].timestamp)
  {
    if id !in s.feedbacks then Err(NotFound)
    else
      var a := match FirstAnalysisFor(s.analyses, id)
        case None => None
        case Some(row) => Some(AnalysisView(row.analysis, row.timestamp));
      Ok(FeedbackView(s.feedbacks[id], a))
  }

  /** `save_analysis_for_feedback`: the existence check, then the duplicate check, then
      one insert, all in one transaction. */
  function SaveAnalysisForFeedback(s: Store, id: int, payload: map<string, Json>, now: int): (r: (Store, Result<(), ApiError>))
    ensures id !in s.feedbacks ==> r == (s, Err(NotFound))
    ensures id in s.feedbacks && HasAnalysis(s.analyses, id) ==> r == (s, Err(AnalysisExists))
    ensures id in s.feedbacks && !HasAnalysis(s.analyses, id) ==>
              && r.1 == Ok(())
              && r.0.feedbacks == s.feedbacks && r.0.nextId == s.nextId
              && r.0.analyses == s.analyses + [AnalysisRow(id, JObj(payload), now)]
    ensures Valid(s) ==> Valid(r.0)
  {
    if id !in s.feedbacks then (s, Err(NotFound))
    else if HasAnalysis(s.analyses, id) then (s, Err(AnalysisExists))
    else (s.(analyses := s.analyses + [AnalysisRow(id, JObj(payload), now)]), Ok(()))
  }

  /** Number of analyses recorded for one feedback. */
  function CountFor(rows: seq<AnalysisRow>, id: int): nat
  {
    if rows == [] then 0
    else (if rows[|rows| - 1].feedbackId == id then 1 else 0) + CountFor(rows[..|rows| - 1], id)
  }

  lemma {:induction false} CountForZero(rows: seq<AnalysisRow>, id: int)
    requires !HasAnalysis(rows, id)
    ensures CountFor(rows, id) == 0
  {
    if rows != [] {
      var init := rows[..|rows| - 1];
      assert forall i :: 0 <= i < |init| ==> init[i] == rows[i];
      CountForZero(init, id);
    }
  }

  /** Analysing a feedback twice: the first call stores the analysis, the second is
      refused with 400 and changes nothing, and exactly one analysis row exists for it. */
  lemma {:induction false} SaveTwice(s: Store, id: int, p1: map<string, Json>, p2: map<string, Json>, t1: int, t2: int)
    requires Valid(s) && id in s.feedbacks && !HasAnalysis(s.analyses, id)
    ensures var (s1, r1) := SaveAnalysisForFeedback(s, id, p1, t1);
            var (s2, r2) := SaveAnalysisForFeedback(s1, id, p2, t2);
            && r1 == Ok(()) && r2 == Err(AnalysisExists) && s2 == s1
            && CountFor(s2.analyses, id) == 1 && Valid(s2)
  {
    var (s1, r1) := SaveAnalysisForFeedback(s, id, p1, t1);
    assert s1.analyses[|s1.analyses| - 1].feedbackId == id;
    assert s1.analyses[..|s1.analyses| - 1] == s.analyses;
    CountForZero(s.analyses, id);
  }

  /** A feedback read back right after it was created carries exactly the stored
      fields and no analysis. */
  lemma CreateThenGet(s: Store, f: FeedbackIn, now: int)
    requires Valid(s)
    ensures var (s', c) := CreateFeedback(s, f, now);
            GetFeedbackWithAnalysis(s', c.feedbackId) == Ok(FeedbackView(c.data, None))
  {
  }

  /** The stored rows in id order. */
  function RowsBetween(m: map<int, Feedback>, lo: int, hi: int): (r: seq<Feedback>)
    requires forall k :: k in m ==> m[k].id == k
    ensures forall i :: 0 <= i < |r| ==> r[i].id in m && m[r[i].id] == r[i] && lo <= r[i].id < hi
    ensures forall k :: k in m && lo <= k < hi ==> m[k] in r
    ensures forall i, j :: 0 <= i < j < |r| ==> r[i].id < r[j].id
    decreases hi - lo
  {
    if lo >= hi then []
    else if lo in m then
      var rest := RowsBetween(m, lo + 1, hi);
      assert forall i :: 0 < i <= |rest| ==> ([m[lo]] + rest)[i] == rest[i - 1];
      [m[lo]] + rest
    else RowsBetween(m, lo + 1, hi)
  }

  function FeedbackTime(f: Feedback): int
  {
    f.timestamp
  }

  function AnalysisTime(a: AnalysisRow): int
  {
    a.timestamp
  }

  /** Under the store invariant the id-ordered rows are exactly the stored rows. */
  lemma RowsAreStored(s: Store)
    requires Valid(s)
    ensures forall f :: f in RowsBetween(s.feedbacks, 1, s.nextId) <==> f in s.feedbacks.Values
  {
    var rows := RowsBetween(s.feedbacks, 1, s.nextId);
    forall f | f in s.feedbacks.Values
      ensures f in rows
    {
      var k :| k in s.feedbacks && s.feedbacks[k] == f;
    }
    forall f | f in rows
      ensures f in s.feedbacks.Values
    {
      var i :| 0 <= i < |rows| && rows[i] == f;
      assert s.feedbacks[f.id] == f;
    }
  }

  /** `get_all_feedbacks`: every stored row exactly once, newest first. */
  function GetAllFeedbacks(s: Store): (r: seq<Feedback>)
    requires Valid(s)
    ensures Sorting.SortedDesc(r, FeedbackTime)
    ensures multiset(r) == multiset(RowsBetween(s.feedbacks, 1, s.nextId))
    ensures forall f :: f in r <==> f in s.feedbacks.Values
  {
    var rows := RowsBetween(s.feedbacks, 1, s.nextId);
    var r := Sorting.SortDesc(rows, FeedbackTime);
    RowsAreStored(s);
    Sorting.SameMembers(r, rows);
    r
  }

  /** An empty store lists no feedback. */
  lemma EmptyStoreListsNothing()
    ensures GetAllFeedbacks(EmptyStore) == []
  {
  }

  /** `get_all_analyses`: every analysis row, newest first. */
  function GetAllAnalyses(s: Store): (r: seq<AnalysisRow>)
    ensures Sorting.SortedDesc(r, AnalysisTime)
    ensures multiset(r) == multiset(s.analyses)
  {
    Sorting.SortDesc(s.analyses, AnalysisTime)
  }

  datatype Recommendation = Recommendation(feedbackId: int, recommendation: Json, timestamp: int)

  /** What one analysis contributes to the recommendations listing: the items of its
      `actionable_insights` list when the analysis is a non-empty object and that member
      is a list (a missing member counts as an empty list), nothing otherwise. */
  function InsightsOf(analysis: Json): seq<Json>
  {
    if analysis.JObj? && Truthy(analysis) then
      match Get(analysis.fields, "actionable_insights", JArr([]))
      case JArr(items) => items
      case _ => []
    else []
  }

  function Tagged(row: AnalysisRow): seq<Recommendation>
  {
    seq(|InsightsOf(row.analysis)|, k requires 0 <= k < |InsightsOf(row.analysis)| =>
      Recommendation(row.feedbackId, InsightsOf(row.analysis)[k], row.timestamp))
  }

  /** `rec` is one of the insights of `row`, tagged with that row's feedback id and time. */
  predicate Describes(rec: Recommendation, row: AnalysisRow)
  {
    rec.feedbackId == row.feedbackId && rec.timestamp == row.timestamp
    && rec.recommendation in InsightsOf(row.analysis)
  }

  lemma TaggedMembers(row: AnalysisRow)
    ensures forall rec :: rec in Tagged(row) ==> Describes(rec, row)
    ensures forall x :: x in InsightsOf(row.analysis) ==>
              Recommendation(row.feedbackId, x, row.timestamp) in Tagged(row)
  {
    var ins := InsightsOf(row.analysis);
    forall x | x in ins
      ensures Recommendation(row.feedbackId, x, row.timestamp) in Tagged(row)
    {
      var k :| 0 <= k < |ins| && ins[k] == x;
      assert Tagged(row)[k] == Recommendation(row.feedbackId, x, row.timestamp);
    }
  }

  /** The insights of each row in turn, each tagged with its row's feedback id and time. */
  function Flatten(rows: seq<AnalysisRow>): (r: seq<Recommendation>)
    ensures forall rec :: rec in r ==> exists row :: row in rows && Describes(rec, row)
    ensures forall row, x :: row in rows && x in InsightsOf(row.analysis) ==>
              Recommendation(row.feedbackId, x, row.timestamp) in r
  {
    if rows == [] then []
    else
      TaggedMembers(rows[0]);
      assert forall row :: row in rows[1..] ==> row in rows;
      assert forall row :: row in rows ==> row == rows[0] || row in rows[1..];
      Tagged(rows[0]) + Flatten(rows[1..])
  }

  /** Flattening distributes over concatenation: the recommendations of two runs of rows are
      those of the first run followed by those of the second. */
  lemma {:induction false} FlattenAppend(a: seq<AnalysisRow>, b: seq<AnalysisRow>)
    ensures Flatten(a + b) == Flatten(a) + Flatten(b)
    decreases |a|
  {
    if a != [] {
      assert (a + b)[1..] == a[1..] + b;
      FlattenAppend(a[1..], b);
    } else {
      assert a + b == b;
    }
  }

  /** A single row gives its insights, in their order and with their repetitions, each tagged
      with the row's feedback id and time. */
  lemma FlattenSingle(row: AnalysisRow)
    ensures Flatten([row]) == Tagged(row)
    ensures |Flatten([row])| == |InsightsOf(row.analysis)|
    ensures forall k :: 0 <= k < |InsightsOf(row.analysis)| ==>
              Flatten([row])[k] == Recommendation(row.feedbackId, InsightsOf(row.analysis)[k], row.timestamp)
  {
    assert [row][1..] == [];
    assert Tagged(row) + [] == Tagged(row);
  }

  /** Reordering the rows reorders the recommendations and changes nothing else: each
      recommendation keeps its number of occurrences. */
  lemma {:induction false} FlattenPermutation(a: seq<AnalysisRow>, b: seq<AnalysisRow>)
    requires multiset(a) == multiset(b)
    ensures multiset(Flatten(a)) == multiset(Flatten(b))
    decreases |a|
  {
    if a == [] {
      assert |b| == |multiset(b)| == 0;
    } else {
      assert a[0] in multiset(b);
      var i :| 0 <= i < |b| && b[i] == a[0];
      var rest := b[..i] + b[i + 1..];
      assert b == b[..i] + [b[i]] + b[i + 1..];
      assert a == [a[0]] + a[1..];
      assert multiset(b) == multiset(b[..i]) + multiset{b[i]} + multiset(b[i + 1..]);
      assert multiset(rest) == multiset(b[..i]) + multiset(b[i + 1..]);
      assert multiset(a) == multiset{a[0]} + multiset(a[1..]);
      assert multiset(a[1..]) == multiset(a) - multiset{a[0]};
      assert multiset(rest) == multiset(b) - multiset{b[i]};
      FlattenPermutation(a[1..], rest);
      FlattenAppend(b[..i], [b[i]]);
      FlattenAppend(b[..i] + [b[i]], b[i + 1..]);
      FlattenAppend(b[..i], b[i + 1..]);
      FlattenSingle(b[i]);
    }
  }

  /** No recommendation is newer than the newest row it comes from. */
  lemma FlattenBounded(rows: seq<AnalysisRow>, t: int)
    requires forall i :: 0 <= i < |rows| ==> rows[i].timestamp <= t
    ensures forall k :: 0 <= k < |Flatten(rows)| ==> Flatten(rows)[k].timestamp <= t
  {
    var r := Flatten(rows);
    forall k | 0 <= k < |r|
      ensures r[k].timestamp <= t
    {
      assert r[k] in r;
      var row :| row in rows && Describes(r[k], row);
    }
  }

  predicate NewestFirst(r: seq<Recommendation>)
  {
    forall a, b :: 0 <= a < b < |r| ==> r[a].timestamp >= r[b].timestamp
  }

  lemma ConcatNewestFirst(head: seq<Recommendation>, tail: seq<Recommendation>, t: int)
    requires forall k :: 0 <= k < |head| ==> head[k].timestamp == t
    requires forall k :: 0 <= k < |tail| ==> tail[k].timestamp <= t
    requires NewestFirst(tail)
    ensures NewestFirst(head + tail)
  {
    var r := head + tail;
    forall a, b | 0 <= a < b < |r|
      ensures r[a].timestamp >= r[b].timestamp
    {
      if b >= |head| {
        assert r[b] == tail[b - |head|];
        if a >= |head| {
          assert r[a] == tail[a - |head|];
        }
      }
    }
  }

  /** Rows listed newest first give recommendations listed newest first. */
  lemma {:induction false} FlattenKeepsOrder(rows: seq<AnalysisRow>)
    requires Sorting.SortedDesc(rows, AnalysisTime)
    ensures NewestFirst(Flatten(rows))
  {
    if rows != [] {
      var head := Tagged(rows[0]);
      assert Sorting.SortedDesc(rows[1..], AnalysisTime);
      FlattenKeepsOrder(rows[1..]);
      FlattenBounded(rows[1..], rows[0].timestamp);
      ConcatNewestFirst(head, Flatten(rows[1..]), rows[0].timestamp);
    }
  }

  /** `get_all_recommendations`: the analyses newest first, each flattened into its
      tagged insights. */
  function GetAllRecommendations(s: Store): (r: seq<Recommendation>)
    ensures forall rec :: rec in r ==> exists row :: row in s.analyses && Describes(rec, row)
    ensures forall row, x :: row in s.analyses && x in InsightsOf(row.analysis) ==>
              Recommendation(row.feedbackId, x, row.timestamp) in r
    ensures NewestFirst(r)
    ensures multiset(r) == multiset(Flatten(s.analyses))
    ensures exists rows :: Sorting.SortedDesc(rows, AnalysisTime) && multiset(rows) == multiset(s.analyses)
                           && r == Flatten(rows)
  {
    var rows := GetAllAnalyses(s);
    Sorting.SameMembers(rows, s.analyses);
    FlattenPermutation(rows, s.analyses);
    assert forall row :: row in rows <==> row in s.analyses;
    FlattenKeepsOrder(rows);
    assert Sorting.SortedDesc(rows, AnalysisTime) && multiset(rows) == multiset(s.analyses);
    Flatten(rows)
  }

  /** Analyses that are not JSON objects, or whose insights are not a list, contribute no
      recommendation at all. */
  lemma NonListInsightsContributeNothing(s: Store)
    requires forall row :: row in s.analyses ==>
               !row.analysis.JObj? || !Get(row.analysis.fields, "actionable_insights", JArr([])).JArr?
    ensures GetAllRecommendations(s) == []
  {
    var rows := GetAllAnalyses(s);
    Sorting.SameMembers(rows, s.analyses);
    FlattenEmpty(rows);
  }

  lemma {:induction false} FlattenEmpty(rows: seq<AnalysisRow>)
    requires forall i :: 0 <= i < |rows| ==> InsightsOf(rows[i].analysis) == []
    ensures Flatten(rows) == []
  {
    if rows != [] {
      FlattenEmpty(rows[1..]);
    }
  }
}
