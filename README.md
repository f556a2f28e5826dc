# loslc-backend core in Dafny

This project models the core of the loslc-backend service. The service has two parts.

- Passwordless authentication. A user registers with an email and a username. Logging in stores a one-hour login token and emails a link that carries it. Following the link creates a 30-day session, which the client presents as the `session` cookie. Every later request resolves that cookie to its user.
- Surveys. Any stored user can create or update a survey. Only admins add questions, delete surveys and list them. Users answer questions. Listings are filtered, then cut to an OFFSET/LIMIT window.

The database is a value of type `Database.Tables`:

- users, login tokens and sessions are maps keyed by their primary key;
- surveys, questions and responses are sequences in insertion order, so the OFFSET/LIMIT windows are well defined.

`Database.Consistent` states the constraints the database enforces at commit: primary keys, the unique `question_id` of a response, and the foreign keys of the survey tables. The class `Database.Db` holds the same six tables as fields, and the services update them in place.

Each operation that changes data has two parts:

- a function `XSpec` from the tables before to a `Step` (the result and the tables after);
- a method on `Db` that performs the guards and stages its change. The method is proved to produce exactly that step.

Commit is `Db.Commit`, and every method that writes, in the authentication service as in the survey service, writes through it. It applies the pending tables only when they are consistent. Otherwise the result is `IntegrityError` and every table stays as it was. Read-only queries are functions of the tables. The converters between table rows and JSON schemas are functions with round-trip lemmas.

Inputs the code draws from its environment are parameters:

- the clock is `now`, an integer number of seconds;
- each random id (`gen_id`, `uuid4`) is a parameter assumed fresh;
- whether the login email was delivered is `emailSent`;
- the caller of a survey operation is the `User` that session resolution returned.

Behaviour kept as written, with comments at each place:

- `add_survey_response` stores the body's `survey_id` and `question_id`, not the path ids it checked. The commit then checks the body's ids.
- `change_survey_response` re-adds the row it loaded. No table changes, and the result is the stored response, not the body.
- `update_survey` has no role check. It overwrites the author with the caller. `UpdateSurveyIgnoresRole` states that the caller's account type plays no part.
- `add_survey_response` builds its result with `from_model` after the commit. The row is then stored even when that conversion fails.
- A successful verification keeps the login token, so the same link can be followed again within the hour.

One defect is corrected rather than kept (see Findings). `validate_answers` reads `response_type` from the class, not from the response being built. Pydantic does not make a field without a default into a class attribute, so the lookup raises AttributeError and no `SurveyResponseSchema` can be built. The model uses the evidently intended validator, `SurveySchemas.ValidateAnswers`, which checks the answer count against the response's own type. So a request body that breaks the rule is refused with 422, and `from_model` fails with ValueError on a stored row whose values break its question's rule.

## Model

| member | source | states |
|---|---|---|
| Uuids.Format | app/routes/schemas/survey_schemas.py:19 | `str(uuid)`: 36 characters, hyphens at positions 8, 13, 18 and 23, lower-case hex digits everywhere else |
| Uuids.Parse | app/routes/schemas/survey_schemas.py:28 | `uuid.UUID(text)`: hyphens are dropped and exactly 32 hex digits of either case must remain; the result is their value |
| Uuids.ParseFormat | app/routes/schemas/survey_schemas.py:19-28 | parsing the text form of any uuid gives back that uuid |
| Models.NewAuthSession | app/db/models.py:32-38 | a new session is accepted up to and including 30 days after creation and expired at every later second; it belongs to the given user |
| Models.NewLoginSession | app/db/models.py:41-47 | a new login token is accepted up to and including one hour after creation and expired at every later second |
| Models.RecordDefaults | app/db/models.py:16-66 | account_type defaults to "user", active to false, question_type to "select" |
| Table.Get | app/routes/services/survey_service.py:46-48 | session.get: a row exactly when one has the key, and under unique keys it is the only such row |
| Table.Replace | app/routes/services/survey_service.py:81-89 | the row with the new row's key is replaced in place; the other rows, the order and the key set are unchanged |
| Table.Remove | app/routes/services/survey_service.py:100-101 | exactly the rows with key k disappear, the key set loses k, and the other rows keep their order |
| Table.Where | app/routes/services/survey_service.py:23 | WHERE: each row satisfying the filter appears as often as the table holds it, and no other row appears |
| Table.WhereConcat | app/routes/services/survey_service.py:23 | filtering keeps table order: filtering two joined stretches of rows is joining their filtered stretches |
| Table.Window | app/routes/services/survey_service.py:23 | OFFSET/LIMIT: at most `limit` rows, row i being the table's row offset + i, so every row comes from the table |
| Table.UniqueKeysAppend | app/db/models.py:17 | an inserted row keeps the primary key unique exactly when its key is new |
| Table.RemoveKeepsUnique | app/db/models.py:75 | a deletion keeps every other unique column unique |
| Database.AppendSurveyCommits | app/db/models.py:50-52 | a new survey commits exactly when its author email is a user |
| Database.ReplaceSurveyCommits | app/db/models.py:50-52 | an overwritten survey commits exactly when its new author email is a user |
| Database.RemoveSurveyCommits | app/db/models.py:61-76 | a survey can be deleted exactly when no question and no response refers to it |
| Database.AppendQuestionCommits | app/db/models.py:61-65 | a new question commits exactly when its id is new, its survey exists and its author is a user |
| Database.ReplaceQuestionCommits | app/db/models.py:61-65 | an overwritten question commits exactly when its survey exists and its author is a user |
| Database.RemoveQuestionCommits | app/db/models.py:72-75 | a question can be deleted exactly when no response refers to it |
| Database.AppendResponseCommits | app/db/models.py:72-76 | a new response commits exactly when its id is new, its question has no response yet, its question and survey exist and its responder is a user |
| Database.RemoveResponseCommits | app/db/models.py:72-80 | deleting a response always commits |
| Database.Db.Commit | app/routes/services/survey_service.py:64-65 | commit applies the pending tables exactly when they are consistent, and otherwise leaves every table as it was |
| UserSchemas.UserFromModel | app/routes/schemas/user_schemas.py:12-17 | the schema carries the user's username, email and account_type |
| UserSchemas.UserToModel | app/routes/schemas/user_schemas.py:19-24 | the user has exactly the schema's three fields and a fresh id; schema to model to schema is the identity |
| UserSchemas.UserModelRoundTrip | app/routes/schemas/user_schemas.py:12-24 | model to schema to model keeps email, username and account_type and replaces only the id |
| SurveySchemas.ParseId | app/routes/schemas/survey_schemas.py:28 | `uuid.UUID` on an optional id succeeds exactly for a present, well-formed id, and fails for None |
| SurveySchemas.SurveyToModel | app/routes/schemas/survey_schemas.py:26-33 | succeeds exactly when the id parses; copies title, description, active and the author's email |
| SurveySchemas.SurveyFromModel | app/routes/schemas/survey_schemas.py:17-24 | the schema's id is the uuid's text, its author is the author's view, and to_model gives back the same survey |
| SurveySchemas.QuestionToModel | app/routes/schemas/survey_schemas.py:53-60 | succeeds exactly when the id parses; copies survey_id, title, question_type and the author's email |
| SurveySchemas.QuestionFromModel | app/routes/schemas/survey_schemas.py:44-51 | to_model gives back the same question |
| SurveySchemas.ResponseToModel | app/routes/schemas/survey_schemas.py:95-102 | keeps a given id and otherwise takes the fresh one; copies survey_id, question_id, answers into values, and responder_email |
| SurveySchemas.ValidateAnswers | app/routes/schemas/survey_schemas.py:82-93 | the corrected validator: accepts exactly the answers that meet the rule of the given response type and keeps them unchanged; otherwise a ValueError with the select/text or the multiselect message |
| SurveySchemas.ValidateAnswersAsWritten | app/routes/schemas/survey_schemas.py:82-84 | as written, the class lookup of response_type fails with AttributeError whatever the answers |
| SurveySchemas.MakeResponseSchema | app/routes/schemas/survey_schemas.py:63-93 | with the corrected validator, a response schema is built exactly when its answers meet its own response type's rule, and then keeps every field as given |
| SurveySchemas.MakeResponseSchemaAsWritten | app/routes/schemas/survey_schemas.py:63-93 | as written, building any response schema fails with AttributeError |
| SurveySchemas.ResponseFromModel | app/routes/schemas/survey_schemas.py:72-80 | succeeds exactly when the stored values meet the rule of the question's type; then response_type is that type and to_model gives back the same response for every fresh id |
| SurveySchemas.ResponseFromModelAsWritten | app/routes/schemas/survey_schemas.py:72-80 | as written, from_model fails with AttributeError on every stored response |
| SurveySchemas.SelectAnswerFailsAsWritten | app/routes/schemas/survey_schemas.py:82-87 | a select response with the single answer "yes": the corrected from_model returns it, the as-written one fails |
| SurveySchemas.AnswerCountRule | app/routes/schemas/survey_schemas.py:82-93 | no answer satisfies only types other than select, multiselect and text; one answer satisfies every type; two or more fail exactly select and text |
| AuthService.DefaultFromUrl | app/auth/route.py:35 | the default redirect is FRONTEND_URL followed by "/v1/auth/login" |
| AuthService.RegisterUserSpec | app/auth/auth_service.py:14-17 | an email already registered fails the commit and changes nothing; otherwise exactly one user is added, with account type "user", and nothing else changes |
| AuthService.RegisterUser | app/auth/auth_service.py:14-17 | the method's outcome and new state are those of RegisterUserSpec |
| AuthService.LoginUserSpec | app/auth/auth_service.py:28-40 | an unknown email is 404 with nothing added; otherwise exactly one token for that email, valid for one hour, is stored before sending, and it stays when the send fails |
| AuthService.LoginUser | app/auth/auth_service.py:28-40 | the method's outcome and new state are those of LoginUserSpec |
| AuthService.VerifyLoginTokenSpec | app/auth/auth_service.py:50-72 | unknown token: 404, nothing changes; expired (strictly before now): deleted, then 401; owner missing: 401; success exactly otherwise, with one new 30-day session for the owner, the login token kept, from_url returned and the cookie set to the new session id |
| AuthService.VerifyLoginToken | app/auth/auth_service.py:50-72 | the method's outcome and new state are those of VerifyLoginTokenSpec |
| AuthService.GetCurrentUserSpec | app/auth/auth_service.py:75-91 | every failure is 401; a missing, empty or unknown cookie changes nothing; an expired session is deleted, and no other outcome changes a table; success exactly for a live session whose owner exists, returning the owner |
| AuthService.GetCurrentUser | app/auth/auth_service.py:75-91 | the method's outcome and new state are those of GetCurrentUserSpec |
| AuthService.VerifyTwiceSucceeds | app/auth/auth_service.py:62-69 | the kept token can be verified again at any time it has not expired, earlier or later than the first time, giving a second session |
| AuthService.ExpiredTokenIsPurged | app/auth/auth_service.py:55-61 | after an expired token fails 401 it is gone, and presenting it again is 404 with nothing changed |
| AuthService.ExpiredSessionIsPurged | app/auth/auth_service.py:81-87 | after an expired session fails it is gone, and presenting it again fails 401 through the unknown-session branch with nothing changed |
| AuthService.ResolveIsIdempotent | app/auth/auth_service.py:88-91 | resolving a valid session changes nothing, so resolving it again at any time before it expires gives the same user and again changes nothing |
| AuthService.RegisterLoginVerifyResolve | app/auth/auth_service.py:14-91 | register, log in, verify within the hour and present the cookie within 30 days: the cookie resolves to the newly registered user |
| SurveyService.GetAllActiveSurveys | app/routes/services/survey_service.py:15-28 | non-admins get 403; otherwise at most `limit` surveys, all active, forming the window at `offset` of the active surveys, cut short only by their end |
| SurveyService.GetAllSurveys | app/routes/services/survey_service.py:31-42 | non-admins get 403; otherwise the window at `offset` of all surveys, at most `limit` long |
| SurveyService.GetSurvey | app/routes/services/survey_service.py:45-50 | any caller; 404 exactly for an unknown id; otherwise the view of the survey with that id |
| SurveyService.GetSurveyQuestions | app/routes/services/survey_service.py:162-172 | any caller; 404 exactly for an unknown survey; otherwise one view per question of that survey, each carrying its id |
| SurveyService.GetSurveyResponses | app/routes/services/survey_service.py:236-254 | 403 for non-admins before any lookup, then 404 for an unknown survey; a negative offset or limit is refused; otherwise the result is ResponsePage for that survey, offset and limit |
| SurveyService.ResponseViews | app/routes/services/survey_service.py:250-253 | the list of views succeeds exactly when every row converts; then it holds each row's view in order, and otherwise the first failing row's ValueError escapes |
| SurveyService.FirstFailure | app/routes/services/survey_service.py:250-253 | the index where the list comprehension stops: every earlier row converts, and the row there does not |
| SurveyService.ResponsePage | app/routes/services/survey_service.py:244-254 | the window at `offset` of the survey's responses converts exactly when each row in it converts; the result holds those views in table order, at most `limit` of them, all of that survey |
| SurveyService.PageViews | app/routes/services/survey_service.py:244-253 | converting the window equals converting the rows from `offset` on, so each view is the view of the row at `offset + i` and carries the survey's id |
| SurveyService.GetSurveyResponse | app/routes/services/survey_service.py:257-267 | 404 before 403; for a caller who is an admin AND the responder, the response's from_model, which fails exactly when its values break its question's rule |
| SurveyService.AddSurveySpec | app/routes/services/survey_service.py:53-68 | the new survey's author is the caller whatever the body says; it succeeds exactly when the caller is a user, and a failure changes nothing |
| SurveyService.AddSurvey | app/routes/services/survey_service.py:53-68 | the method's outcome and new state are those of AddSurveySpec |
| SurveyService.UpdateSurveySpec | app/routes/services/survey_service.py:71-91 | a bad id fails, an unknown id is 404; otherwise the survey is overwritten in place with the body and the caller as author, and the result carries the body's id in canonical text form |
| SurveyService.UpdateSurvey | app/routes/services/survey_service.py:71-91 | the method's outcome and new state are those of UpdateSurveySpec |
| SurveyService.UpdateSurveyIgnoresRole | app/routes/services/survey_service.py:71-91 | the outcome is the same whatever the caller's account type: there is no role check |
| SurveyService.DeleteSurveySpec | app/routes/services/survey_service.py:94-104 | non-admins get 403 and nothing changes, an unknown id is 404; otherwise exactly that survey is removed, which succeeds exactly when nothing refers to it |
| SurveyService.DeleteSurvey | app/routes/services/survey_service.py:94-104 | the method's outcome and new state are those of DeleteSurveySpec |
| SurveyService.AddSurveyQuestionSpec | app/routes/services/survey_service.py:107-123 | 403, then 404 for an unknown survey, then a bad body id fails; the stored question's survey is the path's survey |
| SurveyService.AddSurveyQuestion | app/routes/services/survey_service.py:107-123 | the method's outcome and new state are those of AddSurveyQuestionSpec |
| SurveyService.UpdateSurveyQuestionSpec | app/routes/services/survey_service.py:126-142 | 403, then a ValueError for a missing id, a parse failure, 404; otherwise the question is overwritten in place with the body's to_model |
| SurveyService.UpdateSurveyQuestion | app/routes/services/survey_service.py:126-142 | the method's outcome and new state are those of UpdateSurveyQuestionSpec |
| SurveyService.DeleteSurveyQuestionSpec | app/routes/services/survey_service.py:145-159 | 403, then 404; otherwise exactly that question is removed, which succeeds exactly when no response refers to it |
| SurveyService.DeleteSurveyQuestion | app/routes/services/survey_service.py:145-159 | the method's outcome and new state are those of DeleteSurveyQuestionSpec |
| SurveyService.AddSurveyResponseSpec | app/routes/services/survey_service.py:175-194 | 403 when the caller is not the responder, then 404 for the survey, then 404 for the question; the body's row is stored exactly when the commit accepts it; the result then succeeds exactly when the body's answers meet the stored question's rule, and carries that question's type and the body's answers, ids and responder |
| SurveyService.AddSurveyResponse | app/routes/services/survey_service.py:175-194 | the method's outcome and new state are those of AddSurveyResponseSpec |
| SurveyService.OneResponsePerQuestion | app/db/models.py:75 | once a question has a response, adding another for it fails and changes nothing, whoever responds |
| SurveyService.ChangeSurveyResponseSpec | app/routes/services/survey_service.py:197-220 | checks the id, the responder, the survey, the question and the response in that order; once they pass, the result is from_model of the stored response, never the body |
| SurveyService.ChangeSurveyResponse | app/routes/services/survey_service.py:197-220 | the method returns ChangeSurveyResponseSpec of the current tables and changes nothing |
| SurveyService.DeleteSurveyResponseSpec | app/routes/services/survey_service.py:223-233 | 404, then 403 unless the caller is the responder, and otherwise still a failure: the request never succeeds |
| SurveyService.DeleteSurveyResponse | app/routes/services/survey_service.py:223-233 | the method returns DeleteSurveyResponseSpec of the current tables and changes nothing |
| SurveyService.DeleteSurveyResponseCorrectedSpec | app/routes/services/survey_service.py:223-233 | the same guards, then exactly that response is removed |
| SurveyService.DeleteSurveyResponseCorrected | app/routes/services/survey_service.py:223-233 | the method's outcome and new state are those of DeleteSurveyResponseCorrectedSpec |
| SurveyService.DeleteOwnResponse | app/routes/services/survey_service.py:229 | a responder deleting their own response: as written it fails, as intended it succeeds and the response is gone |
| SurveyRoutes.GetSurveys | app/routes/survey.py:36-48 | a limit above 10 is rejected; active true gives only the active listing, false the unfiltered one; never more than 10 surveys |
| SurveyRoutes.GetSurveysDefaults | app/routes/survey.py:40-42 | with no query an admin gets the first ten active surveys, or all of them when there are fewer |
| SurveyRoutes.PathId | app/routes/survey.py:57 | a path id given as text is accepted exactly when it parses as a uuid, and a malformed one is a ValueError raised in the handler |
| SurveyRoutes.PathIdOfFormat | app/routes/survey.py:57 | the canonical text of a uuid is accepted and gives that uuid back |
| SurveyRoutes.SurveyById | app/routes/survey.py:51-57 | a malformed path id fails before the service runs; otherwise get_survey of the parsed id, so the canonical text of a stored survey's id returns that survey's view |
| SurveyRoutes.DeleteSurveyById | app/routes/survey.py:78-84 | a malformed path id fails and changes nothing; otherwise the outcome and new state of delete_survey for the parsed id |
| SurveyRoutes.SurveyQuestionsById | app/routes/survey.py:87-93 | a malformed path id fails; otherwise get_survey_questions of the parsed id, every view carrying that id |
| SurveyRoutes.CreateSurveyQuestion | app/routes/survey.py:96-105 | a malformed path id fails and changes nothing; otherwise the outcome and new state of add_survey_question for the parsed id |
| SurveyRoutes.GetSurveyResponsesPage | app/routes/survey.py:137-151 | a limit above 10 is rejected; otherwise at most 10 responses, all of the path's survey |
| SurveyRoutes.ResponseBody | app/routes/survey.py:158 | a response body is accepted exactly when its answers meet its own response type's rule, and is then taken as given; otherwise 422 |
| SurveyRoutes.CreateSurveyResponse | app/routes/survey.py:154-168 | a body that breaks its answer rule is 422 and changes nothing; otherwise the path survey id and the query question id reach add_survey_response unchanged |
| SurveyRoutes.EditSurveyResponse | app/routes/survey.py:171-185 | a body that breaks its answer rule is 422; otherwise the query survey and question ids reach change_survey_response unchanged |

## Left out

- Email delivery (app/services/email.py) is network I/O. It is the `emailSent` parameter of `LoginUser`, and the send happens after the token is stored.
- Random ids (`gen_id` in app/utils/crypto.py, and `uuid4`) are parameters. Each is required not to be a key already present.
- `datetime.now()` is the integer parameter `now`, in seconds. Sub-second precision is not modelled.
- Engine and session setup, environment variables and server startup (app/db/database.py, app/env.py, app/app.py) are process plumbing. `FRONTEND_URL` is the parameter of `DefaultFromUrl`.
- JSON response bodies, success status codes, the login-link URL text and cookie attributes are not modelled. Results and error values stand in for them.
- Form and query binding is not modelled, nor EmailStr and other request validation. The exceptions are the `limit <= 10` bound on the two listing routes and the answer rule on a response body.
- The other route handlers in app/routes/survey.py and app/auth/route.py only forward their arguments to the services, and are not modelled. The exceptions are gt_survey, del_survey, gt_survey_questions and create_survey_question: they take the survey id as text and parse it themselves. They are modelled as `SurveyRoutes.SurveyById`, `DeleteSurveyById`, `SurveyQuestionsById` and `CreateSurveyQuestion`, whose parse failure `MalformedId` is the ValueError that escapes the handler as a server error. The routes that type the id as UUID answer the same input with 422 instead.
- The framework runs session resolution before it validates the query. The route functions take the resolved caller as a parameter, so that order is not modelled.
- The session and login-token tables' foreign key to the user is not part of `Database.Consistent`. This keeps the code's "no such user" branches reachable.
- Adding a new object whose primary key is already loaded conflicts in SQLAlchemy's identity map. `update_survey` and `update_survey_question` do this, and it is modelled as replacing the row in place.
- Deleting a survey or question that other rows still reference is modelled as a failed commit. The ORM's nulling of child foreign keys is not modelled.
- Uuids.Parse: accepts only 32 ASCII hex digits, with or without hyphens. `uuid.UUID` also removes `urn:` and `uuid:` wherever they occur and strips braces from both ends. Python's `int(..., 16)` then also takes a `0x` prefix, a sign, underscores, surrounding whitespace and non-ASCII decimal digits.
- SurveyService.GetAllActiveSurveys: rows come back in insertion order. The SQL has no ORDER BY, so the database may return another order. The same holds for GetAllSurveys, GetSurveyQuestions and GetSurveyResponses.
- SurveyService.GetSurveyResponses: uses the corrected answer validator. As written, building a response schema raises AttributeError, so every non-empty page fails with a server error.
- SurveyService.GetSurveyResponse: uses the corrected answer validator. As written, it fails with AttributeError once the guards pass.
- SurveyService.AddSurveyResponseSpec: uses the corrected answer validator. As written, the route never reaches the service, because reading the body raises AttributeError. Called with a body built some other way, the service stores the row and then fails in from_model.
- SurveyService.ChangeSurveyResponseSpec: uses the corrected answer validator. As written, the route never reaches it, and from_model would fail once the guards pass.
- SurveyService.AddSurveyResponse: is proved equal to AddSurveyResponseSpec, so it shares that line's corrected validator.
- SurveyService.ChangeSurveyResponse: is proved equal to ChangeSurveyResponseSpec, so it shares that line's corrected validator.
- SurveyRoutes.CreateSurveyResponse: reads the body with the corrected validator. As written, every request fails with AttributeError before the handler runs.
- SurveyRoutes.EditSurveyResponse: reads the body with the corrected validator. As written, every request fails with AttributeError before the handler runs.
- SurveyRoutes.GetSurveyResponsesPage: inherits GetSurveyResponses' corrected validator, so as written a non-empty page fails.
- A negative offset or limit is modelled as the error `NegativeWindow`, which is the database's refusal. The service code itself does not check either.
- Event and EventUserLink are not modelled, because no operation uses them.
- Concurrent requests are not modelled, for example two verifications of one token racing each other.

## Findings

| source | as written | input that shows it | evidently intended | confidence | as-written member | corrected member |
|---|---|---|---|---|---|---|
| app/routes/services/survey_service.py:229 | `delete_survey_response` passes the database session itself to `delete`; it is not a mapped row, so the call raises and nothing is deleted | an existing response, deleted by its own responder | delete that response and commit | not executed; high | SurveyService.DeleteSurveyResponseSpec, SurveyService.DeleteOwnResponse | SurveyService.DeleteSurveyResponseCorrectedSpec |
| app/routes/schemas/survey_schemas.py:84 | `validate_answers` matches on `cls.response_type`; a pydantic field without a default is not a class attribute, so the lookup raises AttributeError, which pydantic does not turn into a validation error; the validator also returns None instead of the answers | any response, for example a select response with the single answer "yes", whether it comes from a request body or from a stored row | check the answer count against the response's own response_type and keep the answers | not executed; medium | SurveySchemas.ValidateAnswersAsWritten, SurveySchemas.MakeResponseSchemaAsWritten, SurveySchemas.ResponseFromModelAsWritten, SurveySchemas.SelectAnswerFailsAsWritten | SurveySchemas.ValidateAnswers, SurveySchemas.MakeResponseSchema, SurveySchemas.ResponseFromModel |
