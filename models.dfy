/** The table records of app/db/models.py with their primary keys and the
    defaults their constructors fill in. Times are whole seconds. */
module Models {
  import opened Results
  import opened Uuids

  /** Keyed by email; `id` is a random uuid4 that no code path reads. */
  datatype User = User(email: string, id: Uuid, username: string, accountType: string)

  /** A 30-day session, presented as the `session` cookie. */
  datatype AuthSession = AuthSession(id: string, userEmail: string, expiresAt: int)

  /** A one-hour login token, sent by email. */
  datatype LoginSession = LoginSession(id: string, userEmail: string, expiresAt: int)

  datatype Survey = Survey(id: Uuid, authorEmail: string, title: string, description: string, active: bool)

  datatype SurveyQuestion =
    SurveyQuestion(id: Uuid, surveyId: Uuid, authorEmail: string, questionType: string, title: string)

  datatype SurveyResponse =
    SurveyResponse(id: Uuid, responderEmail: string, questionId: Uuid, surveyId: Uuid, values: seq<string>)

  const SecondsPerHour: int := 60 * 60
  const LoginSessionLifetime: int := SecondsPerHour            // timedelta(hours=1)
  const AuthSessionLifetime: int := 30 * 24 * SecondsPerHour   // timedelta(days=30)

  predicate IsAdmin(u: User) {
    u.accountType == "admin"
  }

  /** `expires_at < now`: the comparison is strict, so a credential is still
      accepted at the very instant it expires. */
  predicate Expired(expiresAt: int, now: int) {
    expiresAt < now
  }

  /** User(email=..., username=...[, account_type=...]). */
  function NewUser(email: string, username: string, id: Uuid, accountType: string := "user"): User {
    User(email, id, username, accountType)
  }

  /** AuthSession(user_email=...) created at `now`: accepted up to and
      including 30 days (2 592 000 s) later, expired from the next second on. */
  function NewAuthSession(id: string, userEmail: string, now: int): (s: AuthSession)
    ensures s.id == id && s.userEmail == userEmail
    ensures forall later: int :: Expired(s.expiresAt, later) <==> later > now + 2_592_000
  {
    AuthSession(id, userEmail, now + AuthSessionLifetime)
  }

  /** LoginSession(user_email=...) created at `now`: accepted up to and
      including one hour (3 600 s) later, expired from the next second on. */
  function NewLoginSession(id: string, userEmail: string, now: int): (s: LoginSession)
    ensures s.id == id && s.userEmail == userEmail
    ensures forall later: int :: Expired(s.expiresAt, later) <==> later > now + 3_600
  {
    LoginSession(id, userEmail, now + LoginSessionLifetime)
  }

  /** Survey(author_email=..., title=..., description=...[, active=...]). */
  function NewSurvey(id: Uuid, authorEmail: string, title: string, description: string,
                     active: bool := false): Survey {
    Survey(id, authorEmail, title, description, active)
  }

  /** SurveyQuestion(survey_id=..., author_email=..., title=...[, question_type=...]). */
  function NewSurveyQuestion(id: Uuid, surveyId: Uuid, authorEmail: string, title: string,
                             questionType: string := "select"): SurveyQuestion {
    SurveyQuestion(id, surveyId, authorEmail, questionType, title)
  }

  /** The column defaults: account_type "user", active false, question_type "select". */
  lemma RecordDefaults(email: string, username: string, id: Uuid, surveyId: Uuid, title: string, description: string)
    ensures NewUser(email, username, id).accountType == "user"
    ensures !NewSurvey(id, email, title, description).active
    ensures NewSurveyQuestion(id, surveyId, email, title).questionType == "select"
  {
  }

  // Primary keys, and the unique question_id of a response.
  function SurveyKey(s: Survey): Uuid { s.id }
  function QuestionKey(q: SurveyQuestion): Uuid { q.id }
  function ResponseKey(r: SurveyResponse): Uuid { r.id }
  function ResponseQuestionKey(r: SurveyResponse): Uuid { r.questionId }
}
