/** app/routes/survey.py: the query defaults and bounds of the listing routes
    and the arguments they hand to the survey service. The caller is the
    user that session resolution returned; a limit above the bound is the
    validation error the framework raises before the handler runs. */
module SurveyRoutes {
  import opened Results
  import opened Uuids
  import opened Models
  import opened Table
  import opened Database
  import opened SurveySchemas
  import opened SurveyService

  /** The bound `le=10` on every listing route's limit. */
  const MaxPageSize: int := 10

  /** `UUID(survey_id)` in the handlers that take the path id as text: the
      text parses as in the schemas, and anything else raises ValueError
      inside the handler, before any service runs. */
  function PathId(raw: string): (r: Result<Uuid>)
    ensures r.Ok? <==> Parse(raw).Some?
    ensures r.Ok? ==> Parse(raw) == Some(r.value)
    ensures r.Err? ==> r.error == MalformedId
  {
    match Parse(raw)
    case None => Err(MalformedId)
    case Some(u) => Ok(u)
  }

  /** The text str(uuid) gives for a survey is a path id every such handler
      accepts, and it names that survey again. */
  lemma PathIdOfFormat(u: Uuid)
    ensures PathId(Format(u)) == Ok(u)
  {
    ParseFormat(u);
  }

  /** GET /surveys/{survey_id}: a malformed path id fails in the handler;
      otherwise get_survey with the parsed id. */
  function SurveyById(raw: string, user: User, t: Tables): (r: Result<SurveySchema>)
    requires Consistent(t)
    ensures PathId(raw).Err? ==> r == Err(MalformedId)
    ensures PathId(raw).Ok? ==> r == GetSurvey(PathId(raw).value, t, user)
    ensures forall s | s in t.surveys && raw == Format(s.id) :: r == Ok(SurveyView(t, s))
  {
    match PathId(raw)
    case Err(e) => Err(e)
    case Ok(id) =>
      assert forall s | s in t.surveys && raw == Format(s.id) :: id == s.id by {
        forall s | s in t.surveys && raw == Format(s.id) ensures id == s.id { PathIdOfFormat(s.id); }
      }
      GetSurvey(id, t, user)
  }

  /** GET /surveys/{survey_id}/questions: a malformed path id fails in the
      handler; otherwise get_survey_questions with the parsed id. */
  function SurveyQuestionsById(raw: string, user: User, t: Tables): (r: Result<seq<SurveyQuestionSchema>>)
    requires Consistent(t)
    ensures PathId(raw).Err? ==> r == Err(MalformedId)
    ensures PathId(raw).Ok? ==> r == GetSurveyQuestions(PathId(raw).value, user, t)
    ensures r.Ok? ==> forall q | q in r.value :: q.surveyId == PathId(raw).value
  {
    match PathId(raw)
    case Err(e) => Err(e)
    case Ok(id) => GetSurveyQuestions(id, user, t)
  }

  /** DELETE /surveys/delete/{survey_id}: a malformed path id fails in the
      handler and nothing changes; otherwise delete_survey with the parsed id. */
  method DeleteSurveyById(db: Db, raw: string, user: User) returns (r: Result<()>)
    requires db.Valid()
    modifies db
    ensures db.Valid()
    ensures PathId(raw).Err? ==> r == Err(MalformedId) && db.Snapshot() == old(db.Snapshot())
    ensures PathId(raw).Ok? ==> Step(r, db.Snapshot()) == DeleteSurveySpec(old(db.Snapshot()), PathId(raw).value, user)
  {
    var id := PathId(raw);
    if id.Err? {
      return Err(MalformedId);
    }
    r := DeleteSurvey(db, id.value, user);
  }

  /** POST /surveys/{survey_id}/questions/create: a malformed path id fails in
      the handler and nothing changes; otherwise add_survey_question with the
      parsed id. */
  method CreateSurveyQuestion(db: Db, raw: string, body: SurveyQuestionSchema, user: User)
    returns (r: Result<SurveyQuestionSchema>)
    requires db.Valid()
    modifies db
    ensures db.Valid()
    ensures PathId(raw).Err? ==> r == Err(MalformedId) && db.Snapshot() == old(db.Snapshot())
    ensures PathId(raw).Ok? ==> Step(r, db.Snapshot()) == AddSurveyQuestionSpec(old(db.Snapshot()), PathId(raw).value, body, user)
  {
    var id := PathId(raw);
    if id.Err? {
      return Err(MalformedId);
    }
    r := AddSurveyQuestion(db, id.value, body, user);
  }

  /** GET /surveys: offset 0, limit 10 and active true unless the query says
      otherwise; limit at most 10; active selects the active-only listing,
      otherwise every survey is listed. */
  function GetSurveys(user: User, t: Tables, offset: int := 0, limit: int := 10, active: bool := true): (r: Result<seq<SurveySchema>>)
    requires Consistent(t)
    ensures limit > MaxPageSize ==> r == Err(RequestInvalid)
    ensures r.Ok? ==> |r.value| <= MaxPageSize
    ensures limit <= MaxPageSize && active ==> r == GetAllActiveSurveys(offset, limit, user, t)
    ensures limit <= MaxPageSize && !active ==> r == GetAllSurveys(offset, limit, user, t)
    ensures r.Ok? && active ==> forall v | v in r.value :: v.active
  {
    if limit > MaxPageSize then Err(RequestInvalid)
    else if active then GetAllActiveSurveys(offset, limit, user, t)
    else GetAllSurveys(offset, limit, user, t)
  }

  /** With no query, an admin gets the first ten active surveys. */
  lemma GetSurveysDefaults(user: User, t: Tables)
    requires Consistent(t) && IsAdmin(user)
    ensures GetSurveys(user, t) == GetAllActiveSurveys(0, 10, user, t)
    ensures GetSurveys(user, t).Ok?
    ensures |GetSurveys(user, t).value| == if |ActiveSurveys(t)| < 10 then |ActiveSurveys(t)| else 10
  {
  }

  /** GET /surveys/{survey_id}/responses: offset 0 and limit 10 unless the
      query says otherwise, limit at most 10. */
  function GetSurveyResponsesPage(surveyId: Uuid, user: User, t: Tables, offset: int := 0, limit: int := 10): (r: Result<seq<SurveyResponseSchema>>)
    requires Consistent(t)
    ensures limit > MaxPageSize ==> r == Err(RequestInvalid)
    ensures limit <= MaxPageSize ==> r == GetSurveyResponses(user, t, surveyId, offset, limit)
    ensures r.Ok? ==> |r.value| <= MaxPageSize && forall v | v in r.value :: v.surveyId == surveyId
  {
    if limit > MaxPageSize then Err(RequestInvalid)
    else GetSurveyResponses(user, t, surveyId, offset, limit)
  }

  /** Reading a SurveyResponseSchema body: the fields arrive as given and
      the schema is built with the corrected answer validator; a broken
      answer-count rule is the validation error the framework answers with
      422 before the handler runs. */
  function ResponseBody(raw: SurveyResponseSchema): (r: Result<SurveyResponseSchema>)
    ensures r.Ok? <==> ValidAnswers(raw.responseType, raw.answers)
    ensures r.Ok? ==> r.value == raw
    ensures r.Err? ==> r.error == RequestInvalid
  {
    match MakeResponseSchema(raw.id, raw.surveyId, raw.questionId, raw.answers, raw.responseType, raw.responderEmail)
    case Err(_) => Err(RequestInvalid)
    case Ok(body) => Ok(body)
  }

  /** POST /surveys/{survey_id}/response: a body whose answers break its own
      response type's rule is refused and nothing changes; otherwise the
      path's survey id and the query's question id go to add_survey_response
      unchanged. */
  method CreateSurveyResponse(db: Db, surveyId: Uuid, questionId: Uuid, raw: SurveyResponseSchema,
                              user: User, freshId: Uuid) returns (r: Result<SurveyResponseSchema>)
    requires db.Valid() && !HasKey(db.responses, ResponseKey, freshId)
    modifies db
    ensures db.Valid()
    ensures !ValidAnswers(raw.responseType, raw.answers) ==>
      r == Err(RequestInvalid) && db.Snapshot() == old(db.Snapshot())
    ensures ValidAnswers(raw.responseType, raw.answers) ==>
      Step(r, db.Snapshot()) == AddSurveyResponseSpec(old(db.Snapshot()), surveyId, questionId, raw, user, freshId)
  {
    var body := ResponseBody(raw);
    if body.Err? {
      return Err(RequestInvalid);
    }
    r := AddSurveyResponse(db, surveyId, questionId, body.value, user, freshId);
  }

  /** PUT /survey/response/edit: the body is read as above, then the query's
      survey and question ids go to change_survey_response unchanged. */
  function EditSurveyResponse(surveyId: Uuid, questionId: Uuid, raw: SurveyResponseSchema, user: User, t: Tables)
    : (r: Result<SurveyResponseSchema>)
    requires Consistent(t)
    ensures !ValidAnswers(raw.responseType, raw.answers) ==> r == Err(RequestInvalid)
    ensures ValidAnswers(raw.responseType, raw.answers) ==> r == ChangeSurveyResponseSpec(t, surveyId, questionId, raw, user)
  {
    match ResponseBody(raw)
    case Err(e) => Err(e)
    case Ok(body) => ChangeSurveyResponseSpec(t, surveyId, questionId, body, user)
  }
}
