/** The database the services read and write through their session: three
    tables keyed by a string (users, login tokens, sessions) and three
    insertion-ordered tables of surveys, questions and responses, together
    with the constraints the database enforces when a change is committed. */
module Database {
  import opened Results
  import opened Uuids
  import opened Models
  import opened Table

  /** The contents of every table at one moment. */
  datatype Tables = Tables(
    users: map<string, User>,
    loginSessions: map<string, LoginSession>,
    authSessions: map<string, AuthSession>,
    surveys: seq<Survey>,
    questions: seq<SurveyQuestion>,
    responses: seq<SurveyResponse>)

  /** Every keyed row is stored under its own primary key. */
  predicate KeysMatch(t: Tables) {
    && (forall e | e in t.users :: t.users[e].email == e)
    && (forall k | k in t.loginSessions :: t.loginSessions[k].id == k)
    && (forall k | k in t.authSessions :: t.authSessions[k].id == k)
  }

  /** The primary keys, the unique question_id of a response, and the
      foreign keys of the survey tables (author, parent survey, question,
      responder). The session tables' foreign key to the user is left out,
      so the code's "no such user" checks on a token or session stay
      reachable. */
  predicate SurveyTablesConsistent(t: Tables) {
    && UniqueKeys(t.surveys, SurveyKey)
    && (forall s | s in t.surveys :: s.authorEmail in t.users)
    && UniqueKeys(t.questions, QuestionKey)
    && (forall q | q in t.questions :: HasKey(t.surveys, SurveyKey, q.surveyId) && q.authorEmail in t.users)
    && UniqueKeys(t.responses, ResponseKey)
    && UniqueKeys(t.responses, ResponseQuestionKey)
    && (forall r | r in t.responses ::
          && HasKey(t.questions, QuestionKey, r.questionId)
          && HasKey(t.surveys, SurveyKey, r.surveyId)
          && r.responderEmail in t.users)
  }

  /** A state the database can be in: what `commit` checks before it
      applies pending changes. */
  predicate Consistent(t: Tables) {
    KeysMatch(t) && SurveyTablesConsistent(t)
  }

  /** The outcome of one operation: its result and the tables after it. */
  datatype Step<+T> = Step(result: Result<T>, after: Tables)

  /** The tables as setup_db creates them. */
  const Empty: Tables := Tables(map[], map[], map[], [], [], [])

  lemma EmptyIsConsistent()
    ensures Consistent(Empty)
  {
  }

  // ------------------------------------------ what commit accepts, by change

  /** A new survey commits exactly when its author is a user. */
  lemma AppendSurveyCommits(t: Tables, row: Survey)
    requires Consistent(t) && !HasKey(t.surveys, SurveyKey, row.id)
    ensures Consistent(t.(surveys := t.surveys + [row])) <==> row.authorEmail in t.users
  {
    UniqueKeysAppend(t.surveys, row, SurveyKey);
    HasKeyAppend(t.surveys, row, SurveyKey);
    assert row in t.surveys + [row];
  }

  /** Replacing a survey commits exactly when its new author is a user. */
  lemma ReplaceSurveyCommits(t: Tables, row: Survey)
    requires Consistent(t) && HasKey(t.surveys, SurveyKey, row.id)
    ensures Consistent(t.(surveys := Replace(t.surveys, SurveyKey, row))) <==> row.authorEmail in t.users
  {
    var i := IndexOf(t.surveys, SurveyKey, row.id);
    assert Replace(t.surveys, SurveyKey, row)[i] == row;
  }

  /** Deleting a survey commits exactly when no question and no response
      refers to it. */
  lemma RemoveSurveyCommits(t: Tables, id: Uuid)
    requires Consistent(t) && HasKey(t.surveys, SurveyKey, id)
    ensures Consistent(t.(surveys := Remove(t.surveys, SurveyKey, id))) <==>
      (forall q | q in t.questions :: q.surveyId != id) && (forall x | x in t.responses :: x.surveyId != id)
  {
  }

  /** A new question commits exactly when its id is new, its survey exists
      and its author is a user. */
  lemma AppendQuestionCommits(t: Tables, row: SurveyQuestion)
    requires Consistent(t)
    ensures Consistent(t.(questions := t.questions + [row])) <==>
      !HasKey(t.questions, QuestionKey, row.id) && HasKey(t.surveys, SurveyKey, row.surveyId)
      && row.authorEmail in t.users
  {
    UniqueKeysAppend(t.questions, row, QuestionKey);
    HasKeyAppend(t.questions, row, QuestionKey);
    assert row in t.questions + [row];
  }

  /** Replacing a question commits exactly when its survey exists and its
      author is a user. */
  lemma ReplaceQuestionCommits(t: Tables, row: SurveyQuestion)
    requires Consistent(t) && HasKey(t.questions, QuestionKey, row.id)
    ensures Consistent(t.(questions := Replace(t.questions, QuestionKey, row))) <==>
      HasKey(t.surveys, SurveyKey, row.surveyId) && row.authorEmail in t.users
  {
    var i := IndexOf(t.questions, QuestionKey, row.id);
    assert Replace(t.questions, QuestionKey, row)[i] == row;
  }

  /** Deleting a question commits exactly when no response refers to it. */
  lemma RemoveQuestionCommits(t: Tables, id: Uuid)
    requires Consistent(t) && HasKey(t.questions, QuestionKey, id)
    ensures Consistent(t.(questions := Remove(t.questions, QuestionKey, id))) <==>
      forall x | x in t.responses :: x.questionId != id
  {
  }

  /** A new response commits exactly when its id is new, its question has no
      response yet, its question and survey exist and its responder is a
      user. */
  lemma AppendResponseCommits(t: Tables, row: SurveyResponse)
    requires Consistent(t)
    ensures Consistent(t.(responses := t.responses + [row])) <==>
      && !HasKey(t.responses, ResponseKey, row.id)
      && !HasKey(t.responses, ResponseQuestionKey, row.questionId)
      && HasKey(t.questions, QuestionKey, row.questionId)
      && HasKey(t.surveys, SurveyKey, row.surveyId)
      && row.responderEmail in t.users
  {
    UniqueKeysAppend(t.responses, row, ResponseKey);
    UniqueKeysAppend(t.responses, row, ResponseQuestionKey);
    assert row in t.responses + [row];
  }

  /** Deleting a response always commits: nothing refers to responses. */
  lemma RemoveResponseCommits(t: Tables, id: Uuid)
    requires Consistent(t) && HasKey(t.responses, ResponseKey, id)
    ensures Consistent(t.(responses := Remove(t.responses, ResponseKey, id)))
  {
    RemoveKeepsUnique(t.responses, ResponseKey, id, ResponseQuestionKey);
  }

  /** The database, updated in place by the services. */
  class Db {
    var users: map<string, User>
    var loginSessions: map<string, LoginSession>
    var authSessions: map<string, AuthSession>
    var surveys: seq<Survey>
    var questions: seq<SurveyQuestion>
    var responses: seq<SurveyResponse>

    function Snapshot(): Tables
      reads this
    {
      Tables(users, loginSessions, authSessions, surveys, questions, responses)
    }

    ghost predicate Valid()
      reads this
    {
      Consistent(Snapshot())
    }

    constructor ()
      ensures Valid() && Snapshot() == Empty
    {
      users, loginSessions, authSessions := map[], map[], map[];
      surveys, questions, responses := [], [], [];
    }

    /** session.commit(): the pending tables replace the current ones when
        they satisfy every key and foreign-key constraint; otherwise the
        transaction rolls back and every table stays as it was. */
    method Commit(pending: Tables) returns (ok: bool)
      requires Valid()
      modifies this
      ensures ok <==> Consistent(pending)
      ensures Valid()
      ensures Snapshot() == if ok then pending else old(Snapshot())
    {
      ok := Consistent(pending);
      if ok {
        users, loginSessions, authSessions := pending.users, pending.loginSessions, pending.authSessions;
        surveys, questions, responses := pending.surveys, pending.questions, pending.responses;
      }
    }
  }
}
