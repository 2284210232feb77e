/** The request and response field constraints that the web layer checks before a
    feedback handler runs (backend/app/models.py). Validation looks at the raw strings,
    exactly as they arrive. */
module Validation {
  import opened Common
  import opened JsonValues

  /** The body of `POST /feedback`, with its fields already of the declared types. */
  datatype FeedbackIn = FeedbackIn(patientId: string, text: string, note: int, emoji: Option<string>)

  datatype Violation =
    | TooShort(field: string, minLength: nat)
    | TooLong(field: string, maxLength: nat)
    | BelowMinimum(field: string, minimum: int)
    | AboveMaximum(field: string, maximum: int)
    | MissingField(field: string)
    | WrongType(field: string)

  const PatientIdMinLength: nat := 1
  const PatientIdMaxLength: nat := 50
  const TextMinLength: nat := 5
  const NoteMin: int := 1
  const NoteMax: int := 5

  /** Every constraint a `FeedbackIn` breaks, in field order; `emoji` has none. */
  function FeedbackViolations(f: FeedbackIn): (errs: seq<Violation>)
    ensures errs == [] <==> PatientIdMinLength <= |f.patientId| <= PatientIdMaxLength && TextMinLength <= |f.text| && NoteMin <= f.note <= NoteMax
    ensures TooShort("text", TextMinLength) in errs <==> |f.text| < TextMinLength
    ensures (BelowMinimum("note", NoteMin) in errs || AboveMaximum("note", NoteMax) in errs) <==> !(NoteMin <= f.note <= NoteMax)
    ensures (TooShort("patient_id", PatientIdMinLength) in errs || TooLong("patient_id", PatientIdMaxLength) in errs)
            <==> !(PatientIdMinLength <= |f.patientId| <= PatientIdMaxLength)
  {
    (if |f.patientId| < PatientIdMinLength then [TooShort("patient_id", PatientIdMinLength)]
     else if |f.patientId| > PatientIdMaxLength then [TooLong("patient_id", PatientIdMaxLength)]
     else [])
    + (if |f.text| < TextMinLength then [TooShort("text", TextMinLength)] else [])
    + (if f.note < NoteMin then [BelowMinimum("note", NoteMin)]
       else if f.note > NoteMax then [AboveMaximum("note", NoteMax)]
       else [])
  }

  predicate ValidFeedbackIn(f: FeedbackIn)
  {
    FeedbackViolations(f) == []
  }

  /** The rating must lie in 1..5: 0 and 6 are refused, every value in between accepted. */
  lemma NoteRange(f: FeedbackIn)
    requires |f.patientId| == 4 && |f.text| == 5
    ensures ValidFeedbackIn(f.(note := 0)) == false
    ensures ValidFeedbackIn(f.(note := 6)) == false
    ensures forall n :: 1 <= n <= 5 ==> ValidFeedbackIn(f.(note := n))
  {
  }

  /** A patient id is accepted exactly when it has 1 to 50 characters. */
  lemma PatientIdLength(f: FeedbackIn, id50: string, id51: string)
    requires ValidFeedbackIn(f) && |id50| == 50 && |id51| == 51
    ensures ValidFeedbackIn(f.(patientId := id50))
    ensures !ValidFeedbackIn(f.(patientId := id51))
    ensures !ValidFeedbackIn(f.(patientId := ""))
  {
  }

  /** The text has a lower bound only: any longer text is still accepted, and the emoji
      never affects validity. */
  lemma TextUnboundedEmojiFree(f: FeedbackIn, longer: string, e: Option<string>)
    requires ValidFeedbackIn(f) && |longer| >= |f.text|
    ensures ValidFeedbackIn(f.(text := longer))
    ensures ValidFeedbackIn(f.(emoji := e))
  {
  }

  /** The body of `POST /feedback/{id}/analyze`: an object whose `analysis` member is an
      object with arbitrary keys. */
  function ValidateAnalysisIn(body: Json): (r: Result<map<string, Json>, Violation>)
    ensures r.Ok? <==> body.JObj? && "analysis" in body.fields && body.fields["analysis"].JObj?
    ensures r.Ok? ==> r.value == body.fields["analysis"].fields
  {
    if !body.JObj? then Err(WrongType("body"))
    else if "analysis" !in body.fields then Err(MissingField("analysis"))
    else match body.fields["analysis"]
      case JObj(m) => Ok(m)
      case _ => Err(WrongType("analysis"))
  }

  /** The three declared members of an analysis in responses; every other key is kept. */
  const DeclaredAnalysisKeys: set<string> := {"primary_sentiment", "confidence_score", "actionable_insights"}

  predicate OptionalString(j: Json)
  {
    j.JNull? || j.JStr?
  }

  predicate OptionalFloat(j: Json)
  {
    j.JNull? || j.JInt? || j.JReal?
  }

  predicate OptionalStringList(j: Json)
  {
    j.JNull? || (j.JArr? && forall k :: 0 <= k < |j.items| ==> j.items[k].JStr?)
  }

  /** A declared member after validation: absent becomes null, an integer confidence
      becomes a float. */
  function CoerceDeclared(key: string, j: Json): Json
  {
    if key == "confidence_score" && j.JInt? then JReal(j.i as real) else j
  }

  /** `AnalysisDataOut`: all declared members optional, each of its declared type when
      present; unknown members are retained unchanged and the missing declared ones are
      filled with null. */
  function ValidateAnalysisOut(m: map<string, Json>): (r: Result<map<string, Json>, seq<Violation>>)
    ensures r.Ok? <==> OptionalString(Get(m, "primary_sentiment", JNull))
                       && OptionalFloat(Get(m, "confidence_score", JNull))
                       && OptionalStringList(Get(m, "actionable_insights", JNull))
    ensures r.Ok? ==> r.value.Keys == m.Keys + DeclaredAnalysisKeys
    ensures r.Ok? ==> forall k :: k in m && k !in DeclaredAnalysisKeys ==> r.value[k] == m[k]
    ensures r.Ok? ==> forall k :: k in DeclaredAnalysisKeys && k !in m ==> r.value[k] == JNull
    ensures r.Ok? && "confidence_score" in m && m["confidence_score"].JInt?
            ==> r.value["confidence_score"] == JReal(m["confidence_score"].i as real)
  {
    var errs :=
      (if OptionalString(Get(m, "primary_sentiment", JNull)) then [] else [WrongType("primary_sentiment")])
      + (if OptionalFloat(Get(m, "confidence_score", JNull)) then [] else [WrongType("confidence_score")])
      + (if OptionalStringList(Get(m, "actionable_insights", JNull)) then [] else [WrongType("actionable_insights")]);
    if errs != [] then Err(errs)
    else Ok(map k | k in m.Keys + DeclaredAnalysisKeys :: CoerceDeclared(k, Get(m, k, JNull)))
  }
}
