/** app/routes/services/survey_service.py: listing, lookup, creation,
    update and deletion of surveys, questions and responses.
    The queries are functions of the tables. Each mutation is a function from
    the tables before to its result and the tables after, and a method on
    the database that stages the change and commits it, proved equal to that
    function. The caller is the user that session resolution returned, and
    the uuid4 a new row draws is the `freshId` parameter. */
module SurveyService {
  import opened Results
  import opened Uuids
  import opened Models
  import opened Table
  import opened Database
  import opened UserSchemas
  import opened SurveySchemas

  // ------------------------------------------------------------------ views

  /** SurveySchema.from_model with the author the relationship loads. */
  function SurveyView(t: Tables, s: Survey): (v: SurveySchema)
    requires Consistent(t) && s.authorEmail in t.users
    ensures v.id == Some(Format(s.id)) && v.author == UserFromModel(t.users[s.authorEmail])
    ensures SurveyToModel(v) == Ok(s) && v.active == s.active
  {
    SurveyFromModel(s, t.users[s.authorEmail])
  }

  /** SurveyQuestionSchema.from_model with the author the relationship loads. */
  function QuestionView(t: Tables, q: SurveyQuestion): (v: SurveyQuestionSchema)
    requires Consistent(t) && q.authorEmail in t.users
    ensures v.author == UserFromModel(t.users[q.authorEmail])
    ensures QuestionToModel(v) == Ok(q) && v.surveyId == q.surveyId
  {
    QuestionFromModel(q, t.users[q.authorEmail])
  }

  /** Every stored response's question is stored: the foreign key that
      lets from_model load a response's question. */
  predicate ResponsesHaveQuestions(t: Tables) {
    forall x | x in t.responses :: HasKey(t.questions, QuestionKey, x.questionId)
  }

  /** SurveyResponseSchema.from_model with the question the relationship
      loads: it fails when the stored values break the answer-count rule of
      that question's type. */
  function ResponseView(t: Tables, x: SurveyResponse): (v: Result<SurveyResponseSchema>)
    requires ResponsesHaveQuestions(t) && x in t.responses
    ensures UniqueKeys(t.questions, QuestionKey) ==> forall q | q in t.questions && q.id == x.questionId ::
      && (v.Ok? <==> ValidAnswers(q.questionType, x.values))
      && (v.Ok? ==> v.value.responseType == q.questionType)
    ensures v.Ok? ==> v.value.id == Some(x.id) && v.value.surveyId == x.surveyId && v.value.questionId == x.questionId
    ensures v.Ok? ==> v.value.answers == x.values && v.value.responderEmail == x.responderEmail
    ensures v.Err? ==> v.error.ValueError?
  {
    ResponseFromModel(x, Get(t.questions, QuestionKey, x.questionId).value)
  }

  function SurveyViews(t: Tables, rows: seq<Survey>): (vs: seq<SurveySchema>)
    requires Consistent(t) && forall s | s in rows :: s.authorEmail in t.users
    ensures |vs| == |rows| && forall i | 0 <= i < |rows| :: vs[i] == SurveyView(t, rows[i])
  {
    seq(|rows|, i requires 0 <= i < |rows| => SurveyView(t, rows[i]))
  }

  function QuestionViews(t: Tables, rows: seq<SurveyQuestion>): (vs: seq<SurveyQuestionSchema>)
    requires Consistent(t) && forall q | q in rows :: q.authorEmail in t.users
    ensures |vs| == |rows| && forall i | 0 <= i < |rows| :: vs[i] == QuestionView(t, rows[i])
  {
    seq(|rows|, i requires 0 <= i < |rows| => QuestionView(t, rows[i]))
  }

  /** The position of the first response from position k on whose
      conversion fails, or |rows| when every one converts. */
  function FirstFailure(t: Tables, rows: seq<SurveyResponse>, k: nat): (i: nat)
    requires k <= |rows|
    requires ResponsesHaveQuestions(t) && forall x | x in rows :: x in t.responses
    ensures k <= i <= |rows|
    ensures forall j | k <= j < i :: ResponseView(t, rows[j]).Ok?
    ensures i < |rows| ==> !ResponseView(t, rows[i]).Ok?
    decreases |rows| - k
  {
    if k == |rows| then k
    else if !ResponseView(t, rows[k]).Ok? then k
    else
      var i := FirstFailure(t, rows, k + 1);
      assert forall j | k < j < i :: ResponseView(t, rows[j]).Ok?;
      i
  }

  /** The list comprehension over from_model: the first failing row's
      exception escapes; otherwise every row's view, in order. */
  function ResponseViews(t: Tables, rows: seq<SurveyResponse>): (vs: Result<seq<SurveyResponseSchema>>)
    requires ResponsesHaveQuestions(t) && forall x | x in rows :: x in t.responses
    ensures vs.Ok? <==> forall i | 0 <= i < |rows| :: ResponseView(t, rows[i]).Ok?
    ensures vs.Ok? ==> |vs.value| == |rows| && forall i | 0 <= i < |rows| :: vs.value[i] == ResponseView(t, rows[i]).value
    ensures vs.Err? ==> vs.error.ValueError?
  {
    var i := FirstFailure(t, rows, 0);
    if i < |rows| then Err(ResponseView(t, rows[i]).error)
    else Ok(seq(|rows|, j requires 0 <= j < |rows| => ResponseView(t, rows[j]).value))
  }

  // ---------------------------------------------------------------- filters

  predicate IsActive(s: Survey) {
    s.active
  }

  /** select(Survey).where(Survey.active), in table order. */
  function ActiveSurveys(t: Tables): (a: seq<Survey>)
    ensures forall s :: s in a <==> s in t.surveys && s.active
  {
    Where(t.surveys, IsActive)
  }

  /** survey.questions: the questions whose survey_id is the survey's id. */
  function QuestionsOf(t: Tables, surveyId: Uuid): (qs: seq<SurveyQuestion>)
    ensures forall q :: q in qs <==> q in t.questions && q.surveyId == surveyId
  {
    Where(t.questions, (q: SurveyQuestion) => q.surveyId == surveyId)
  }

  /** select(SurveyResponse).where(SurveyResponse.survey_id == survey_id). */
  function ResponsesOf(t: Tables, surveyId: Uuid): (xs: seq<SurveyResponse>)
    ensures forall x :: x in xs <==> x in t.responses && x.surveyId == surveyId
  {
    Where(t.responses, (x: SurveyResponse) => x.surveyId == surveyId)
  }

  // ---------------------------------------------------------------- queries

  /** get_all_active_surveys: admins only; the OFFSET/LIMIT window of the
      active surveys. The database rejects a negative offset or limit. */
  function GetAllActiveSurveys(offset: int, limit: int, user: User, t: Tables): (r: Result<seq<SurveySchema>>)
    requires Consistent(t)
    ensures !IsAdmin(user) ==> r == Err(Forbidden)
    ensures r.Ok? <==> IsAdmin(user) && 0 <= offset && 0 <= limit
    ensures IsAdmin(user) && !r.Ok? ==> r == Err(NegativeWindow)
    ensures r.Ok? ==> |r.value| <= limit && (|r.value| == limit || offset + |r.value| >= |ActiveSurveys(t)|)
    ensures r.Ok? ==> forall i | 0 <= i < |r.value| ::
      && offset + i < |ActiveSurveys(t)|
      && r.value[i] == SurveyView(t, ActiveSurveys(t)[offset + i])
      && r.value[i].active
  {
    if !IsAdmin(user) then Err(Forbidden)
    else if offset < 0 || limit < 0 then Err(NegativeWindow)
    else Ok(SurveyViews(t, Window(ActiveSurveys(t), offset, limit)))
  }

  /** get_all_surveys: admins only; the OFFSET/LIMIT window of every survey. */
  function GetAllSurveys(offset: int, limit: int, user: User, t: Tables): (r: Result<seq<SurveySchema>>)
    requires Consistent(t)
    ensures !IsAdmin(user) ==> r == Err(Forbidden)
    ensures r.Ok? <==> IsAdmin(user) && 0 <= offset && 0 <= limit
    ensures IsAdmin(user) && !r.Ok? ==> r == Err(NegativeWindow)
    ensures r.Ok? ==> |r.value| <= limit && (|r.value| == limit || offset + |r.value| >= |t.surveys|)
    ensures r.Ok? ==> forall i | 0 <= i < |r.value| ::
      offset + i < |t.surveys| && r.value[i] == SurveyView(t, t.surveys[offset + i])
  {
    if !IsAdmin(user) then Err(Forbidden)
    else if offset < 0 || limit < 0 then Err(NegativeWindow)
    else Ok(SurveyViews(t, Window(t.surveys, offset, limit)))
  }

  /** get_survey: any caller; 404 for an unknown id. */
  function GetSurvey(id: Uuid, t: Tables, user: User): (r: Result<SurveySchema>)
    requires Consistent(t)
    ensures r.Ok? <==> HasKey(t.surveys, SurveyKey, id)
    ensures !r.Ok? ==> r == Err(SurveyNotFound)
    ensures forall s | s in t.surveys && s.id == id :: r == Ok(SurveyView(t, s))
  {
    match Get(t.surveys, SurveyKey, id)
    case None => Err(SurveyNotFound)
    case Some(s) => Ok(SurveyView(t, s))
  }

  /** get_survey_questions: any caller; 404 for an unknown survey; otherwise
      the survey's questions, each carrying that survey's id. */
  function GetSurveyQuestions(surveyId: Uuid, user: User, t: Tables): (r: Result<seq<SurveyQuestionSchema>>)
    requires Consistent(t)
    ensures r.Ok? <==> HasKey(t.surveys, SurveyKey, surveyId)
    ensures !r.Ok? ==> r == Err(SurveyNotFound)
    ensures r.Ok? ==> |r.value| == |QuestionsOf(t, surveyId)|
    ensures r.Ok? ==> forall i | 0 <= i < |r.value| ::
      r.value[i] == QuestionView(t, QuestionsOf(t, surveyId)[i]) && r.value[i].surveyId == surveyId
  {
    if !HasKey(t.surveys, SurveyKey, surveyId) then Err(SurveyNotFound)
    else Ok(QuestionViews(t, QuestionsOf(t, surveyId)))
  }

  /** get_survey_responses: admins only; 404 for an unknown survey; a
      negative OFFSET or LIMIT is refused by the database; otherwise the
      converted page of that survey's responses. */
  function GetSurveyResponses(user: User, t: Tables, surveyId: Uuid, offset: int, limit: int): (r: Result<seq<SurveyResponseSchema>>)
    requires Consistent(t)
    ensures !IsAdmin(user) ==> r == Err(Forbidden)
    ensures IsAdmin(user) && !HasKey(t.surveys, SurveyKey, surveyId) ==> r == Err(SurveyNotFound)
    ensures IsAdmin(user) && HasKey(t.surveys, SurveyKey, surveyId) && (offset < 0 || limit < 0) ==>
      r == Err(NegativeWindow)
    ensures IsAdmin(user) && HasKey(t.surveys, SurveyKey, surveyId) && 0 <= offset && 0 <= limit ==>
      r == ResponsePage(t, surveyId, offset, limit)
  {
    if !IsAdmin(user) then Err(Forbidden)
    else if !HasKey(t.surveys, SurveyKey, surveyId) then Err(SurveyNotFound)
    else if offset < 0 || limit < 0 then Err(NegativeWindow)
    else ResponsePage(t, surveyId, offset, limit)
  }

  /** The query of get_survey_responses and its list comprehension: the
      OFFSET/LIMIT window of one survey's responses, converted. It succeeds
      exactly when every row in the window converts, and then holds those
      rows' views in table order, never more than `limit`, cut short only by
      the end of the survey's responses, and all of that survey. */
  function ResponsePage(t: Tables, surveyId: Uuid, offset: nat, limit: nat): (r: Result<seq<SurveyResponseSchema>>)
    requires ResponsesHaveQuestions(t)
    ensures r.Ok? <==> forall i | offset <= i < |ResponsesOf(t, surveyId)| && i < offset + limit ::
                         ResponseView(t, ResponsesOf(t, surveyId)[i]).Ok?
    ensures r.Err? ==> r.error.ValueError?
    ensures r.Ok? ==> |r.value| <= limit && (|r.value| == limit || offset + |r.value| >= |ResponsesOf(t, surveyId)|)
    ensures r.Ok? ==> forall i | 0 <= i < |r.value| ::
      && offset + i < |ResponsesOf(t, surveyId)|
      && r.value[i] == ResponseView(t, ResponsesOf(t, surveyId)[offset + i]).value
    ensures r.Ok? ==> forall v | v in r.value :: v.surveyId == surveyId
  {
    var rows := ResponsesOf(t, surveyId);
    var page := Window(rows, offset, limit);
    var r := ResponseViews(t, page);
    PageViews(t, rows, surveyId, offset, limit, r);
    r
  }

  /** An OFFSET/LIMIT page of responses of one survey, converted: it
      succeeds exactly when every row on the page converts, and then holds
      those rows' views in table order. */
  lemma PageViews(t: Tables, rows: seq<SurveyResponse>, surveyId: Uuid, offset: nat, limit: nat,
                  r: Result<seq<SurveyResponseSchema>>)
    requires ResponsesHaveQuestions(t) && forall x | x in rows :: x in t.responses && x.surveyId == surveyId
    requires r == ResponseViews(t, Window(rows, offset, limit))
    ensures r.Ok? <==> forall i | offset <= i < |rows| && i < offset + limit :: ResponseView(t, rows[i]).Ok?
    ensures r.Err? ==> r.error.ValueError?
    ensures r.Ok? ==> |r.value| <= limit && (|r.value| == limit || offset + |r.value| >= |rows|)
    ensures r.Ok? ==> forall i | 0 <= i < |r.value| ::
      offset + i < |rows| && r.value[i] == ResponseView(t, rows[offset + i]).value
    ensures r.Ok? ==> forall v | v in r.value :: v.surveyId == surveyId
  {
    var page := Window(rows, offset, limit);
    assert forall i | offset <= i < |rows| && i < offset + limit :: rows[i] == page[i - offset];
    if r.Ok? {
      forall v | v in r.value
        ensures v.surveyId == surveyId
      {
        var i :| 0 <= i < |r.value| && r.value[i] == v;
        assert page[i] in rows;
      }
    }
  }

  /** get_survey_response: 404 before 403; the caller must be an admin AND
      the responder. */
  function GetSurveyResponse(user: User, t: Tables, responseId: Uuid): (r: Result<SurveyResponseSchema>)
    requires Consistent(t)
    ensures !HasKey(t.responses, ResponseKey, responseId) ==> r == Err(ResponseNotFound)
    ensures forall x | x in t.responses && x.id == responseId ::
      r == if IsAdmin(user) && user.email == x.responderEmail then ResponseView(t, x) else Err(Forbidden)
  {
    match Get(t.responses, ResponseKey, responseId)
    case None => Err(ResponseNotFound)
    case Some(x) =>
      if !IsAdmin(user) || user.email != x.responderEmail then Err(Forbidden)
      else ResponseView(t, x)
  }

  // ---------------------------------------------------------------- surveys

  /** add_survey: a new survey by the caller, whatever author the body
      names; the commit fails when the caller is not a stored user. */
  function AddSurveySpec(t: Tables, body: SurveySchema, user: User, freshId: Uuid): (out: Step<SurveySchema>)
    requires Consistent(t) && !HasKey(t.surveys, SurveyKey, freshId)
    ensures Consistent(out.after)
    ensures out.result.Ok? <==> user.email in t.users
    ensures out.result.Err? ==> out == Step(Err(IntegrityError), t)
    ensures out.result.Ok? ==>
      && out.after == t.(surveys := t.surveys + [Survey(freshId, user.email, body.title, body.description, body.active)])
      && out.result.value.id == Some(Format(freshId))
      && out.result.value.author == UserFromModel(t.users[user.email])
      && SurveyToModel(out.result.value) == Ok(Survey(freshId, user.email, body.title, body.description, body.active))
  {
    var row := NewSurvey(freshId, user.email, body.title, body.description, body.active);
    var pending := t.(surveys := t.surveys + [row]);
    AppendSurveyCommits(t, row);
    if Consistent(pending) then Step(Ok(SurveyView(pending, row)), pending)
    else Step(Err(IntegrityError), t)
  }

  method AddSurvey(db: Db, body: SurveySchema, user: User, freshId: Uuid) returns (r: Result<SurveySchema>)
    requires db.Valid() && !HasKey(db.surveys, SurveyKey, freshId)
    modifies db
    ensures db.Valid()
    ensures Step(r, db.Snapshot()) == AddSurveySpec(old(db.Snapshot()), body, user, freshId)
  {
    var row := NewSurvey(freshId, user.email, body.title, body.description, body.active);
    var ok := db.Commit(db.Snapshot().(surveys := db.surveys + [row]));
    if !ok {
      return Err(IntegrityError);
    }
    r := Ok(SurveyView(db.Snapshot(), row));
  }

  /** update_survey: no role check; a malformed or missing body id fails, an
      unknown id is 404; otherwise the row is overwritten in place with the
      body's fields and the caller as author. */
  function UpdateSurveySpec(t: Tables, body: SurveySchema, user: User): (out: Step<SurveySchema>)
    requires Consistent(t)
    ensures Consistent(out.after)
    ensures ParseId(body.id).Err? ==> out == Step(Err(MalformedId), t)
    ensures ParseId(body.id).Ok? && !HasKey(t.surveys, SurveyKey, ParseId(body.id).value) ==>
      out == Step(Err(SurveyNotFound), t)
    ensures out.result.Ok? <==>
      ParseId(body.id).Ok? && HasKey(t.surveys, SurveyKey, ParseId(body.id).value) && user.email in t.users
    ensures out.result.Err? ==> out.after == t
    ensures out.result.Ok? ==>
      && out.after == t.(surveys := Replace(t.surveys, SurveyKey,
                                            Survey(ParseId(body.id).value, user.email, body.title, body.description, body.active)))
      && out.result.value.id == Some(Format(ParseId(body.id).value))
      && out.result.value.author == UserFromModel(t.users[user.email])
      && SurveyToModel(out.result.value) == Ok(Survey(ParseId(body.id).value, user.email, body.title, body.description, body.active))
  {
    match ParseId(body.id)
    case Err(e) => Step(Err(e), t)
    case Ok(id) =>
      if !HasKey(t.surveys, SurveyKey, id) then Step(Err(SurveyNotFound), t)
      else
        var row := NewSurvey(id, user.email, body.title, body.description, body.active);
        var pending := t.(surveys := Replace(t.surveys, SurveyKey, row));
        ReplaceSurveyCommits(t, row);
        if Consistent(pending) then Step(Ok(SurveyView(pending, row)), pending)
        else Step(Err(IntegrityError), t)
  }

  method UpdateSurvey(db: Db, body: SurveySchema, user: User) returns (r: Result<SurveySchema>)
    requires db.Valid()
    modifies db
    ensures db.Valid()
    ensures Step(r, db.Snapshot()) == UpdateSurveySpec(old(db.Snapshot()), body, user)
  {
    var id := ParseId(body.id);
    if id.Err? {
      return Err(id.error);
    }
    var found := Get(db.surveys, SurveyKey, id.value);
    if found.None? {
      return Err(SurveyNotFound);
    }
    var row := NewSurvey(id.value, user.email, body.title, body.description, body.active);
    var ok := db.Commit(db.Snapshot().(surveys := Replace(db.surveys, SurveyKey, row)));
    if !ok {
      return Err(IntegrityError);
    }
    r := Ok(SurveyView(db.Snapshot(), row));
  }

  /** update_survey reads nothing of the caller but the email: its outcome is
      the same whatever the caller's account type. */
  lemma UpdateSurveyIgnoresRole(t: Tables, body: SurveySchema, user: User, accountType: string)
    requires Consistent(t)
    ensures UpdateSurveySpec(t, body, user.(accountType := accountType)) == UpdateSurveySpec(t, body, user)
  {
  }

  /** delete_survey: admins only; 404 for an unknown id; otherwise exactly
      that survey is removed, which the commit accepts only while no
      question and no response refers to it. */
  function DeleteSurveySpec(t: Tables, id: Uuid, user: User): (out: Step<()>)
    requires Consistent(t)
    ensures Consistent(out.after)
    ensures !IsAdmin(user) ==> out == Step(Err(Forbidden), t)
    ensures IsAdmin(user) && !HasKey(t.surveys, SurveyKey, id) ==> out == Step(Err(SurveyNotFound), t)
    ensures out.result.Ok? <==>
      && IsAdmin(user) && HasKey(t.surveys, SurveyKey, id)
      && (forall q | q in t.questions :: q.surveyId != id)
      && (forall x | x in t.responses :: x.surveyId != id)
    ensures out.result.Err? ==> out.after == t
    ensures out.result.Ok? ==> out.after == t.(surveys := Remove(t.surveys, SurveyKey, id))
  {
    if !IsAdmin(user) then Step(Err(Forbidden), t)
    else if !HasKey(t.surveys, SurveyKey, id) then Step(Err(SurveyNotFound), t)
    else
      var pending := t.(surveys := Remove(t.surveys, SurveyKey, id));
      RemoveSurveyCommits(t, id);
      if Consistent(pending) then Step(Ok(()), pending) else Step(Err(IntegrityError), t)
  }

  method DeleteSurvey(db: Db, id: Uuid, user: User) returns (r: Result<()>)
    requires db.Valid()
    modifies db
    ensures db.Valid()
    ensures Step(r, db.Snapshot()) == DeleteSurveySpec(old(db.Snapshot()), id, user)
  {
    if !IsAdmin(user) {
      return Err(Forbidden);
    }
    var found := Get(db.surveys, SurveyKey, id);
    if found.None? {
      return Err(SurveyNotFound);
    }
    var ok := db.Commit(db.Snapshot().(surveys := Remove(db.surveys, SurveyKey, id)));
    if !ok {
      return Err(IntegrityError);
    }
    r := Ok(());
  }

  // -------------------------------------------------------------- questions

  /** add_survey_question: admins only; 404 for an unknown survey; the body
      must carry a well-formed id; the stored question belongs to the survey
      of the path, whatever survey the body names. */
  function AddSurveyQuestionSpec(t: Tables, surveyId: Uuid, body: SurveyQuestionSchema, user: User): (out: Step<SurveyQuestionSchema>)
    requires Consistent(t)
    ensures Consistent(out.after)
    ensures !IsAdmin(user) ==> out == Step(Err(Forbidden), t)
    ensures IsAdmin(user) && !HasKey(t.surveys, SurveyKey, surveyId) ==> out == Step(Err(SurveyNotFound), t)
    ensures IsAdmin(user) && HasKey(t.surveys, SurveyKey, surveyId) && ParseId(body.id).Err? ==>
      out == Step(Err(MalformedId), t)
    ensures out.result.Ok? <==>
      && IsAdmin(user) && HasKey(t.surveys, SurveyKey, surveyId) && ParseId(body.id).Ok?
      && !HasKey(t.questions, QuestionKey, ParseId(body.id).value) && body.author.email in t.users
    ensures out.result.Err? ==> out.after == t
    ensures out.result.Ok? ==>
      && out.after == t.(questions := t.questions
           + [SurveyQuestion(ParseId(body.id).value, surveyId, body.author.email, body.questionType, body.title)])
      && out.result.value.surveyId == surveyId
      && QuestionToModel(out.result.value)
         == Ok(SurveyQuestion(ParseId(body.id).value, surveyId, body.author.email, body.questionType, body.title))
  {
    if !IsAdmin(user) then Step(Err(Forbidden), t)
    else if !HasKey(t.surveys, SurveyKey, surveyId) then Step(Err(SurveyNotFound), t)
    else match QuestionToModel(body)
      case Err(e) => Step(Err(e), t)
      case Ok(q) =>
        var row := q.(surveyId := surveyId);
        var pending := t.(questions := t.questions + [row]);
        AppendQuestionCommits(t, row);
        if Consistent(pending) then Step(Ok(QuestionView(pending, row)), pending)
        else Step(Err(IntegrityError), t)
  }

  method AddSurveyQuestion(db: Db, surveyId: Uuid, body: SurveyQuestionSchema, user: User) returns (r: Result<SurveyQuestionSchema>)
    requires db.Valid()
    modifies db
    ensures db.Valid()
    ensures Step(r, db.Snapshot()) == AddSurveyQuestionSpec(old(db.Snapshot()), surveyId, body, user)
  {
    if !IsAdmin(user) {
      return Err(Forbidden);
    }
    var survey := Get(db.surveys, SurveyKey, surveyId);
    if survey.None? {
      return Err(SurveyNotFound);
    }
    var q := QuestionToModel(body);
    if q.Err? {
      return Err(q.error);
    }
    var row := q.value.(surveyId := surveyId);
    var ok := db.Commit(db.Snapshot().(questions := db.questions + [row]));
    if !ok {
      return Err(IntegrityError);
    }
    r := Ok(QuestionView(db.Snapshot(), row));
  }

  /** update_survey_question: admins only; an absent id is a ValueError, a
      malformed one fails to parse, an unknown one is 404; otherwise the row
      is overwritten in place with the body converted by to_model. */
  function UpdateSurveyQuestionSpec(t: Tables, body: SurveyQuestionSchema, user: User): (out: Step<SurveyQuestionSchema>)
    requires Consistent(t)
    ensures Consistent(out.after)
    ensures !IsAdmin(user) ==> out == Step(Err(Forbidden), t)
    ensures IsAdmin(user) && body.id.None? ==> out == Step(Err(ValueError("Question ID is required")), t)
    ensures IsAdmin(user) && body.id.Some? && ParseId(body.id).Err? ==> out == Step(Err(MalformedId), t)
    ensures IsAdmin(user) && ParseId(body.id).Ok? && !HasKey(t.questions, QuestionKey, ParseId(body.id).value) ==>
      out == Step(Err(QuestionNotFound), t)
    ensures out.result.Ok? <==>
      && IsAdmin(user) && ParseId(body.id).Ok? && HasKey(t.questions, QuestionKey, ParseId(body.id).value)
      && HasKey(t.surveys, SurveyKey, body.surveyId) && body.author.email in t.users
    ensures out.result.Err? ==> out.after == t
    ensures out.result.Ok? ==>
      && out.after == t.(questions := Replace(t.questions, QuestionKey, QuestionToModel(body).value))
      && QuestionToModel(out.result.value) == QuestionToModel(body)
  {
    if !IsAdmin(user) then Step(Err(Forbidden), t)
    else if body.id.None? then Step(Err(ValueError("Question ID is required")), t)
    else match ParseId(body.id)
      case Err(e) => Step(Err(e), t)
      case Ok(id) =>
        if !HasKey(t.questions, QuestionKey, id) then Step(Err(QuestionNotFound), t)
        else
          var row := QuestionToModel(body).value;
          var pending := t.(questions := Replace(t.questions, QuestionKey, row));
          ReplaceQuestionCommits(t, row);
          // The loaded row is returned; after the commit it holds the new values.
          if Consistent(pending) then Step(Ok(QuestionView(pending, row)), pending)
          else Step(Err(IntegrityError), t)
  }

  method UpdateSurveyQuestion(db: Db, body: SurveyQuestionSchema, user: User) returns (r: Result<SurveyQuestionSchema>)
    requires db.Valid()
    modifies db
    ensures db.Valid()
    ensures Step(r, db.Snapshot()) == UpdateSurveyQuestionSpec(old(db.Snapshot()), body, user)
  {
    if !IsAdmin(user) {
      return Err(Forbidden);
    }
    if body.id.None? {
      return Err(ValueError("Question ID is required"));
    }
    var id := ParseId(body.id);
    if id.Err? {
      return Err(id.error);
    }
    var found := Get(db.questions, QuestionKey, id.value);
    if found.None? {
      return Err(QuestionNotFound);
    }
    var row := QuestionToModel(body).value;
    var ok := db.Commit(db.Snapshot().(questions := Replace(db.questions, QuestionKey, row)));
    if !ok {
      return Err(IntegrityError);
    }
    r := Ok(QuestionView(db.Snapshot(), row));
  }

  /** delete_survey_question: admins only; 404 for an unknown id; otherwise
      exactly that question is removed, which the commit accepts only while
      no response refers to it. */
  function DeleteSurveyQuestionSpec(t: Tables, questionId: Uuid, user: User): (out: Step<()>)
    requires Consistent(t)
    ensures Consistent(out.after)
    ensures !IsAdmin(user) ==> out == Step(Err(Forbidden), t)
    ensures IsAdmin(user) && !HasKey(t.questions, QuestionKey, questionId) ==> out == Step(Err(QuestionNotFound), t)
    ensures out.result.Ok? <==>
      && IsAdmin(user) && HasKey(t.questions, QuestionKey, questionId)
      && (forall x | x in t.responses :: x.questionId != questionId)
    ensures out.result.Err? ==> out.after == t
    ensures out.result.Ok? ==> out.after == t.(questions := Remove(t.questions, QuestionKey, questionId))
  {
    if !IsAdmin(user) then Step(Err(Forbidden), t)
    else if !HasKey(t.questions, QuestionKey, questionId) then Step(Err(QuestionNotFound), t)
    else
      var pending := t.(questions := Remove(t.questions, QuestionKey, questionId));
      RemoveQuestionCommits(t, questionId);
      if Consistent(pending) then Step(Ok(()), pending) else Step(Err(IntegrityError), t)
  }

  method DeleteSurveyQuestion(db: Db, questionId: Uuid, user: User) returns (r: Result<()>)
    requires db.Valid()
    modifies db
    ensures db.Valid()
    ensures Step(r, db.Snapshot()) == DeleteSurveyQuestionSpec(old(db.Snapshot()), questionId, user)
  {
    if !IsAdmin(user) {
      return Err(Forbidden);
    }
    var found := Get(db.questions, QuestionKey, questionId);
    if found.None? {
      return Err(QuestionNotFound);
    }
    var ok := db.Commit(db.Snapshot().(questions := Remove(db.questions, QuestionKey, questionId)));
    if !ok {
      return Err(IntegrityError);
    }
    r := Ok(());
  }

  // -------------------------------------------------------------- responses

  /** What lets add_survey_response store the body: the caller is the body's
      responder, the path's survey and question exist, and the commit takes
      the row (its id is new, its question has no response yet, and the
      body's question, survey and responder are stored). */
  predicate ResponseAccepted(t: Tables, surveyId: Uuid, questionId: Uuid, body: SurveyResponseSchema,
                             user: User, freshId: Uuid)
  {
    && user.email == body.responderEmail
    && HasKey(t.surveys, SurveyKey, surveyId) && HasKey(t.questions, QuestionKey, questionId)
    && !HasKey(t.responses, ResponseKey, ResponseToModel(body, freshId).id)
    && !HasKey(t.responses, ResponseQuestionKey, body.questionId)
    && HasKey(t.questions, QuestionKey, body.questionId) && HasKey(t.surveys, SurveyKey, body.surveyId)
    && body.responderEmail in t.users
  }

  /** add_survey_response: 403 unless the caller is the body's responder,
      then 404 for the path's survey, then 404 for the path's question. The
      stored row is the body's to_model: it carries the body's survey and
      question ids, not the path's, and the commit checks those. The result
      is from_model of the stored row, read with its question's type, so a
      body whose own response type differs from that question's can be
      stored and still end in ValueError. */
  function AddSurveyResponseSpec(t: Tables, surveyId: Uuid, questionId: Uuid, body: SurveyResponseSchema,
                                 user: User, freshId: Uuid): (out: Step<SurveyResponseSchema>)
    requires Consistent(t) && !HasKey(t.responses, ResponseKey, freshId)
    ensures Consistent(out.after)
    ensures user.email != body.responderEmail ==> out == Step(Err(Forbidden), t)
    ensures user.email == body.responderEmail && !HasKey(t.surveys, SurveyKey, surveyId) ==>
      out == Step(Err(SurveyNotFound), t)
    ensures user.email == body.responderEmail && HasKey(t.surveys, SurveyKey, surveyId)
            && !HasKey(t.questions, QuestionKey, questionId) ==>
      out == Step(Err(QuestionNotFound), t)
    ensures user.email == body.responderEmail && HasKey(t.surveys, SurveyKey, surveyId)
            && HasKey(t.questions, QuestionKey, questionId) && !ResponseAccepted(t, surveyId, questionId, body, user, freshId) ==>
      out == Step(Err(IntegrityError), t)
    ensures ResponseAccepted(t, surveyId, questionId, body, user, freshId) ==>
      && out.after == t.(responses := t.responses + [ResponseToModel(body, freshId)])
      && (out.result.Err? ==> out.result.error.ValueError?)
      && forall q | q in t.questions && q.id == body.questionId ::
           && (out.result.Ok? <==> ValidAnswers(q.questionType, body.answers))
           && (out.result.Ok? ==> out.result.value.responseType == q.questionType)
    ensures out.result.Ok? ==>
      && ResponseAccepted(t, surveyId, questionId, body, user, freshId)
      && out.result.value.id == Some(ResponseToModel(body, freshId).id)
      && out.result.value.answers == body.answers && out.result.value.responderEmail == body.responderEmail
      && out.result.value.questionId == body.questionId && out.result.value.surveyId == body.surveyId
  {
    if user.email != body.responderEmail then Step(Err(Forbidden), t)
    else if !HasKey(t.surveys, SurveyKey, surveyId) then Step(Err(SurveyNotFound), t)
    else if !HasKey(t.questions, QuestionKey, questionId) then Step(Err(QuestionNotFound), t)
    else
      var row := ResponseToModel(body, freshId);
      var pending := t.(responses := t.responses + [row]);
      AppendResponseCommits(t, row);
      if Consistent(pending) then Step(ResponseView(pending, row), pending)
      else Step(Err(IntegrityError), t)
  }

  method AddSurveyResponse(db: Db, surveyId: Uuid, questionId: Uuid, body: SurveyResponseSchema,
                           user: User, freshId: Uuid) returns (r: Result<SurveyResponseSchema>)
    requires db.Valid() && !HasKey(db.responses, ResponseKey, freshId)
    modifies db
    ensures db.Valid()
    ensures Step(r, db.Snapshot()) == AddSurveyResponseSpec(old(db.Snapshot()), surveyId, questionId, body, user, freshId)
  {
    if user.email != body.responderEmail {
      return Err(Forbidden);
    }
    var survey := Get(db.surveys, SurveyKey, surveyId);
    if survey.None? {
      return Err(SurveyNotFound);
    }
    var question := Get(db.questions, QuestionKey, questionId);
    if question.None? {
      return Err(QuestionNotFound);
    }
    var row := ResponseToModel(body, freshId);
    var ok := db.Commit(db.Snapshot().(responses := db.responses + [row]));
    if !ok {
      return Err(IntegrityError);
    }
    r := ResponseView(db.Snapshot(), row);
  }

  /** A question holds at most one response across all responders: once a
      response for it is stored, another response naming it fails the commit
      and leaves the tables as they were. */
  lemma OneResponsePerQuestion(t: Tables, surveyId: Uuid, questionId: Uuid, body: SurveyResponseSchema,
                               user: User, freshId: Uuid, x: SurveyResponse)
    requires Consistent(t) && !HasKey(t.responses, ResponseKey, freshId)
    requires x in t.responses && x.questionId == body.questionId
    ensures AddSurveyResponseSpec(t, surveyId, questionId, body, user, freshId).result.Err?
    ensures AddSurveyResponseSpec(t, surveyId, questionId, body, user, freshId).after == t
  {
    var i :| 0 <= i < |t.responses| && t.responses[i] == x;
    assert ResponseQuestionKey(t.responses[i]) == body.questionId;
  }

  /** change_survey_response: 404 without a body id, then 403 unless the
      caller is the body's responder, then 404 for the survey, the question
      and the response in that order. The loaded row is added back as it
      was, so no table changes and the body's answers are dropped: the
      result is from_model of the stored response. */
  function ChangeSurveyResponseSpec(t: Tables, surveyId: Uuid, questionId: Uuid, body: SurveyResponseSchema,
                                    user: User): (r: Result<SurveyResponseSchema>)
    requires Consistent(t)
    ensures body.id.None? ==> r == Err(ResponseIdRequired)
    ensures body.id.Some? && user.email != body.responderEmail ==> r == Err(Forbidden)
    ensures body.id.Some? && user.email == body.responderEmail && !HasKey(t.surveys, SurveyKey, surveyId) ==>
      r == Err(SurveyNotFound)
    ensures body.id.Some? && user.email == body.responderEmail && HasKey(t.surveys, SurveyKey, surveyId)
            && !HasKey(t.questions, QuestionKey, questionId) ==>
      r == Err(QuestionNotFound)
    ensures r.Ok? ==>
      && body.id.Some? && user.email == body.responderEmail
      && HasKey(t.surveys, SurveyKey, surveyId) && HasKey(t.questions, QuestionKey, questionId)
      && HasKey(t.responses, ResponseKey, body.id.value)
    ensures body.id.Some? && user.email == body.responderEmail
            && HasKey(t.surveys, SurveyKey, surveyId) && HasKey(t.questions, QuestionKey, questionId) ==>
      && (!HasKey(t.responses, ResponseKey, body.id.value) ==> r == Err(ResponseNotFound))
      && forall x | x in t.responses && x.id == body.id.value :: r == ResponseView(t, x)
  {
    if body.id.None? then Err(ResponseIdRequired)
    else if user.email != body.responderEmail then Err(Forbidden)
    else if !HasKey(t.surveys, SurveyKey, surveyId) then Err(SurveyNotFound)
    else if !HasKey(t.questions, QuestionKey, questionId) then Err(QuestionNotFound)
    else match Get(t.responses, ResponseKey, body.id.value)
      case None => Err(ResponseNotFound)
      case Some(x) => ResponseView(t, x)
  }

  method ChangeSurveyResponse(db: Db, surveyId: Uuid, questionId: Uuid, body: SurveyResponseSchema,
                              user: User) returns (r: Result<SurveyResponseSchema>)
    requires db.Valid()
    ensures r == ChangeSurveyResponseSpec(db.Snapshot(), surveyId, questionId, body, user)
  {
    if body.id.None? {
      return Err(ResponseIdRequired);
    }
    if user.email != body.responderEmail {
      return Err(Forbidden);
    }
    var survey := Get(db.surveys, SurveyKey, surveyId);
    if survey.None? {
      return Err(SurveyNotFound);
    }
    var question := Get(db.questions, QuestionKey, questionId);
    if question.None? {
      return Err(QuestionNotFound);
    }
    var stored := Get(db.responses, ResponseKey, body.id.value);
    if stored.None? {
      return Err(ResponseNotFound);
    }
    r := ResponseView(db.Snapshot(), stored.value);
  }

  /** delete_survey_response as written: 404, then 403 unless the caller is
      the responder, then the call deletes the database session object
      instead of the response; that object is not a mapped row, so the call
      raises, nothing is deleted and the request never succeeds. */
  function DeleteSurveyResponseSpec(t: Tables, user: User, responseId: Uuid): (r: Result<()>)
    requires Consistent(t)
    ensures r.Err?
    ensures !HasKey(t.responses, ResponseKey, responseId) ==> r == Err(ResponseNotFound)
    ensures forall x | x in t.responses && x.id == responseId ::
      r == Err(if user.email == x.responderEmail then UnmappedInstance else Forbidden)
  {
    match Get(t.responses, ResponseKey, responseId)
    case None => Err(ResponseNotFound)
    case Some(x) => if user.email != x.responderEmail then Err(Forbidden) else Err(UnmappedInstance)
  }

  method DeleteSurveyResponse(db: Db, user: User, responseId: Uuid) returns (r: Result<()>)
    requires db.Valid()
    ensures r == DeleteSurveyResponseSpec(db.Snapshot(), user, responseId)
  {
    var stored := Get(db.responses, ResponseKey, responseId);
    if stored.None? {
      return Err(ResponseNotFound);
    }
    if user.email != stored.value.responderEmail {
      return Err(Forbidden);
    }
    r := Err(UnmappedInstance);
  }

  /** delete_survey_response as evidently intended: the same guards, then
      exactly that response is removed; the commit always accepts it. */
  function DeleteSurveyResponseCorrectedSpec(t: Tables, user: User, responseId: Uuid): (out: Step<()>)
    requires Consistent(t)
    ensures Consistent(out.after)
    ensures !HasKey(t.responses, ResponseKey, responseId) ==> out == Step(Err(ResponseNotFound), t)
    ensures forall x | x in t.responses && x.id == responseId ::
      out.result == (if user.email == x.responderEmail then Ok(()) else Err(Forbidden))
    ensures out.result.Err? ==> out.after == t
    ensures out.result.Ok? ==> out.after == t.(responses := Remove(t.responses, ResponseKey, responseId))
  {
    match Get(t.responses, ResponseKey, responseId)
    case None => Step(Err(ResponseNotFound), t)
    case Some(x) =>
      if user.email != x.responderEmail then Step(Err(Forbidden), t)
      else
        RemoveResponseCommits(t, responseId);
        Step(Ok(()), t.(responses := Remove(t.responses, ResponseKey, responseId)))
  }

  method DeleteSurveyResponseCorrected(db: Db, user: User, responseId: Uuid) returns (r: Result<()>)
    requires db.Valid()
    modifies db
    ensures db.Valid()
    ensures Step(r, db.Snapshot()) == DeleteSurveyResponseCorrectedSpec(old(db.Snapshot()), user, responseId)
  {
    var stored := Get(db.responses, ResponseKey, responseId);
    if stored.None? {
      return Err(ResponseNotFound);
    }
    if user.email != stored.value.responderEmail {
      return Err(Forbidden);
    }
    var ok := db.Commit(db.Snapshot().(responses := Remove(db.responses, ResponseKey, responseId)));
    assert ok;
    r := Ok(());
  }

  /** The responder deleting their own response: as written the request
      fails and the response stays; as intended it succeeds and the response
      is gone. */
  lemma DeleteOwnResponse(t: Tables, x: SurveyResponse, user: User)
    requires Consistent(t) && x in t.responses && user.email == x.responderEmail
    ensures DeleteSurveyResponseSpec(t, user, x.id) == Err(UnmappedInstance)
    ensures var fixed := DeleteSurveyResponseCorrectedSpec(t, user, x.id);
      fixed.result == Ok(()) && x !in fixed.after.responses && fixed.after.surveys == t.surveys
  {
  }
}
