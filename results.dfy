/** Outcomes of the service functions: a value, or the exception that the
    Python code raises (or lets escape) instead of returning. */
module Results {

  datatype Option<+T> = None | Some(value: T)

  /** Every way an operation of the core can fail. */
  datatype Error =
    | HttpError(status: nat, detail: string)  // an HTTPException raised by the code itself
    | RequestInvalid                          // a query parameter bound fails (FastAPI answers 422)
    | MalformedId                             // uuid.UUID(...) given None or a badly formed string
    | ValueError(message: string)             // a ValueError raised by the code itself
    | IntegrityError                          // the commit breaks a key, unique or foreign-key constraint
    | NegativeWindow                          // the database refuses a negative OFFSET or LIMIT
    | DeliveryError                           // the email transport failed
    | UnmappedInstance                        // session.delete(...) given an object that is not a row
    | AttributeError(name: string)            // an attribute lookup on a class that has no such attribute

  datatype Result<+T> = Ok(value: T) | Err(error: Error)

  const Forbidden: Error := HttpError(403, "Forbidden")
  const UserNotFound: Error := HttpError(404, "User not found")
  const TokenNotFound: Error := HttpError(404, "Token not found")
  const TokenExpired: Error := HttpError(401, "Token expired")
  const InvalidLoginSession: Error := HttpError(401, "Invalid login session")
  const InvalidSession: Error := HttpError(401, "Invalid session")
  const SessionExpired: Error := HttpError(401, "Session expired")
  const SurveyNotFound: Error := HttpError(404, "Survey not found")
  const QuestionNotFound: Error := HttpError(404, "Question not found")
  const ResponseNotFound: Error := HttpError(404, "Response not found")
  const ResponseIdRequired: Error := HttpError(404, "Response id must be provided")
}
