/** SurveySchema, SurveyQuestionSchema and SurveyResponseSchema of
    app/routes/schemas/survey_schemas.py: the JSON views of the survey
    tables, their from_model/to_model converters, and the answer-count rule
    of validate_answers. */
module SurveySchemas {
  import opened Results
  import opened Uuids
  import opened Models
  import opened UserSchemas

  datatype SurveySchema = SurveySchema(
    id: Option<string>, title: string, description: string, active: bool, author: UserSchema)

  datatype SurveyQuestionSchema = SurveyQuestionSchema(
    id: Option<string>, author: UserSchema, surveyId: Uuid, title: string, questionType: string)

  datatype SurveyResponseSchema = SurveyResponseSchema(
    id: Option<Uuid>, surveyId: Uuid, questionId: Uuid, answers: seq<string>,
    responseType: string, responderEmail: string)

  /** uuid.UUID(self.id) on an optional string id: it raises for None as
      well as for a badly formed string. */
  function ParseId(id: Option<string>): (r: Result<Uuid>)
    ensures r.Ok? <==> id.Some? && Parse(id.value).Some?
    ensures r.Ok? ==> Parse(id.value) == Some(r.value)
    ensures r.Err? ==> r.error == MalformedId
  {
    if id.None? then Err(MalformedId)
    else match Parse(id.value)
      case None => Err(MalformedId)
      case Some(u) => Ok(u)
  }

  /** SurveySchema.to_model. */
  function SurveyToModel(s: SurveySchema): (r: Result<Survey>)
    ensures r.Ok? <==> ParseId(s.id).Ok?
    ensures r.Err? ==> r.error == MalformedId
    ensures r.Ok? ==> r.value.id == ParseId(s.id).value && r.value.authorEmail == s.author.email
    ensures r.Ok? ==> r.value.title == s.title && r.value.description == s.description && r.value.active == s.active
  {
    match ParseId(s.id)
    case Err(e) => Err(e)
    case Ok(id) => Ok(Survey(id, s.author.email, s.title, s.description, s.active))
  }

  /** SurveySchema.from_model, given the author the relationship loads.
      Converting back with to_model gives the same survey: id, title,
      description, active flag and author email all survive. */
  function SurveyFromModel(s: Survey, author: User): (r: SurveySchema)
    requires author.email == s.authorEmail
    ensures r.id == Some(Format(s.id)) && r.author == UserFromModel(author)
    ensures SurveyToModel(r) == Ok(s)
  {
    ParseFormat(s.id);
    SurveySchema(Some(Format(s.id)), s.title, s.description, s.active, UserFromModel(author))
  }

  /** SurveyQuestionSchema.to_model. */
  function QuestionToModel(s: SurveyQuestionSchema): (r: Result<SurveyQuestion>)
    ensures r.Ok? <==> ParseId(s.id).Ok?
    ensures r.Err? ==> r.error == MalformedId
    ensures r.Ok? ==> r.value.id == ParseId(s.id).value && r.value.authorEmail == s.author.email
    ensures r.Ok? ==> r.value.surveyId == s.surveyId && r.value.title == s.title && r.value.questionType == s.questionType
  {
    match ParseId(s.id)
    case Err(e) => Err(e)
    case Ok(id) => Ok(SurveyQuestion(id, s.surveyId, s.author.email, s.questionType, s.title))
  }

  /** SurveyQuestionSchema.from_model, given the author the relationship
      loads. Converting back gives the same question: id, survey id, title,
      question type and author email all survive. */
  function QuestionFromModel(q: SurveyQuestion, author: User): (r: SurveyQuestionSchema)
    requires author.email == q.authorEmail
    ensures r.id == Some(Format(q.id)) && r.author == UserFromModel(author)
    ensures QuestionToModel(r) == Ok(q)
  {
    ParseFormat(q.id);
    SurveyQuestionSchema(Some(Format(q.id)), UserFromModel(author), q.surveyId, q.title, q.questionType)
  }

  /** SurveyResponseSchema.to_model: keeps a given id and otherwise takes
      the fresh uuid4; answers become values. */
  function ResponseToModel(s: SurveyResponseSchema, freshId: Uuid): (r: SurveyResponse)
    ensures s.id.Some? ==> r.id == s.id.value
    ensures s.id.None? ==> r.id == freshId
    ensures r.surveyId == s.surveyId && r.questionId == s.questionId
    ensures r.values == s.answers && r.responderEmail == s.responderEmail
  {
    SurveyResponse(if s.id.Some? then s.id.value else freshId, s.responderEmail, s.questionId, s.surveyId, s.answers)
  }

  /** The answer-count rule that validate_answers spells out: "select" and
      "text" take exactly one answer, "multiselect" at least one, and any
      other response type is unconstrained because the match has no default
      case. */
  predicate ValidAnswers(responseType: string, answers: seq<string>)
  {
    if responseType == "select" then |answers| == 1
    else if responseType == "multiselect" then !(|answers| < 1)
    else if responseType == "text" then |answers| == 1
    else true
  }

  /** validate_answers as evidently intended: the answer count is checked
      against the response_type of the response being built, a broken rule
      raises ValueError with the rule's message, and the answers are kept. */
  function ValidateAnswers(responseType: string, answers: seq<string>): (r: Result<seq<string>>)
    ensures r.Ok? <==> ValidAnswers(responseType, answers)
    ensures r.Ok? ==> r.value == answers
    ensures r.Err? && responseType == "multiselect" ==> r.error == ValueError("At least one answer is required")
    ensures r.Err? && responseType != "multiselect" ==>
      responseType in {"select", "text"} && r.error == ValueError("Only one answer is allowed")
  {
    match responseType
    case "select" => if |answers| != 1 then Err(ValueError("Only one answer is allowed")) else Ok(answers)
    case "multiselect" => if |answers| < 1 then Err(ValueError("At least one answer is required")) else Ok(answers)
    case "text" => if |answers| != 1 then Err(ValueError("Only one answer is allowed")) else Ok(answers)
    case _ => Ok(answers)
  }

  /** validate_answers as written: it matches on `cls.response_type`, a
      lookup on the class. A pydantic field without a default is not an
      attribute of its class, so the lookup raises AttributeError before any
      answer is counted, and pydantic lets that exception through instead
      of reporting a validation error. (Were the lookup to succeed, the
      validator would still return None in place of the answers.) */
  function ValidateAnswersAsWritten(answers: seq<string>): (r: Result<seq<string>>)
    ensures r.Err? && r.error.AttributeError?
  {
    Err(AttributeError("response_type"))
  }

  /** Building a SurveyResponseSchema with the corrected validator: it exists
      exactly when the answers meet the rule of its own response type, and
      then holds every field as given. */
  function MakeResponseSchema(id: Option<Uuid>, surveyId: Uuid, questionId: Uuid, answers: seq<string>,
                              responseType: string, responderEmail: string): (r: Result<SurveyResponseSchema>)
    ensures r.Ok? <==> ValidAnswers(responseType, answers)
    ensures r.Ok? ==> r.value.id == id && r.value.surveyId == surveyId && r.value.questionId == questionId
    ensures r.Ok? ==> r.value.answers == answers && r.value.responseType == responseType
    ensures r.Ok? ==> r.value.responderEmail == responderEmail
    ensures r.Err? ==> r.error.ValueError?
  {
    match ValidateAnswers(responseType, answers)
    case Err(e) => Err(e)
    case Ok(a) => Ok(SurveyResponseSchema(id, surveyId, questionId, a, responseType, responderEmail))
  }

  /** Building a SurveyResponseSchema as written: the validator on answers
      runs during construction and its exception escapes, whatever the
      fields are. */
  function MakeResponseSchemaAsWritten(id: Option<Uuid>, surveyId: Uuid, questionId: Uuid, answers: seq<string>,
                                       responseType: string, responderEmail: string): (r: Result<SurveyResponseSchema>)
    ensures r.Err? && r.error.AttributeError?
  {
    match ValidateAnswersAsWritten(answers)
    case Err(e) => Err(e)
    case Ok(a) => Ok(SurveyResponseSchema(id, surveyId, questionId, a, responseType, responderEmail))
  }

  /** SurveyResponseSchema.from_model with the corrected validator, given the
      question the relationship loads: response_type is that question's type,
      so the stored values must meet that type's rule. Converting back gives
      the same response whatever fresh id is on offer. */
  function ResponseFromModel(r: SurveyResponse, question: SurveyQuestion): (s: Result<SurveyResponseSchema>)
    requires question.id == r.questionId
    ensures s.Ok? <==> ValidAnswers(question.questionType, r.values)
    ensures s.Ok? ==> s.value.responseType == question.questionType && s.value.id == Some(r.id)
    ensures s.Ok? ==> forall freshId: Uuid :: ResponseToModel(s.value, freshId) == r
    ensures s.Err? ==> s.error.ValueError?
  {
    MakeResponseSchema(Some(r.id), r.surveyId, r.questionId, r.values, question.questionType, r.responderEmail)
  }

  /** SurveyResponseSchema.from_model as written: it fails on every stored
      response. */
  function ResponseFromModelAsWritten(r: SurveyResponse, question: SurveyQuestion): (s: Result<SurveyResponseSchema>)
    requires question.id == r.questionId
    ensures s.Err? && s.error.AttributeError?
  {
    MakeResponseSchemaAsWritten(Some(r.id), r.surveyId, r.questionId, r.values, question.questionType, r.responderEmail)
  }

  /** The discrepancy on one input: a "select" response with the single
      answer "yes" meets the rule, so the corrected from_model gives it
      back, while as written from_model raises on it. As written, no
      SurveyResponseSchema can be built at all, from a request body or from
      a stored row. */
  lemma SelectAnswerFailsAsWritten(r: SurveyResponse, question: SurveyQuestion)
    requires question.id == r.questionId && question.questionType == "select" && r.values == ["yes"]
    ensures ResponseFromModel(r, question).Ok? && ResponseFromModel(r, question).value.answers == ["yes"]
    ensures ResponseFromModelAsWritten(r, question).Err?
  {
  }

  /** The rule by answer count: which types a given number of answers
      satisfies. */
  lemma AnswerCountRule(responseType: string, answers: seq<string>)
    ensures |answers| == 0 ==> (ValidAnswers(responseType, answers) <==> responseType !in {"select", "multiselect", "text"})
    ensures |answers| == 1 ==> ValidAnswers(responseType, answers)
    ensures |answers| >= 2 ==> (ValidAnswers(responseType, answers) <==> responseType !in {"select", "text"})
  {
  }
}
