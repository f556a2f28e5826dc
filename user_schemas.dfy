/** UserSchema of app/routes/schemas/user_schemas.py: the public view of a
    user, without the uuid `id`. */
module UserSchemas {
  import opened Uuids
  import opened Models

  datatype UserSchema = UserSchema(username: string, email: string, accountType: string)

  /** UserSchema.from_model: copies username, email and account_type. */
  function UserFromModel(u: User): (s: UserSchema)
    ensures s.username == u.username && s.email == u.email && s.accountType == u.accountType
  {
    UserSchema(u.username, u.email, u.accountType)
  }

  /** UserSchema.to_model: a User with exactly the three fields; its `id` is
      the fresh uuid4 the model's default factory draws. Going schema to
      model to schema gives the schema back. */
  function UserToModel(s: UserSchema, freshId: Uuid): (u: User)
    ensures UserFromModel(u) == s
    ensures u.email == s.email && u.username == s.username && u.accountType == s.accountType
    ensures u.id == freshId
  {
    NewUser(s.email, s.username, freshId, s.accountType)
  }

  /** Model to schema to model keeps email, username and account_type and
      replaces only the id. */
  lemma UserModelRoundTrip(u: User, freshId: Uuid)
    ensures UserToModel(UserFromModel(u), freshId) == u.(id := freshId)
  {
  }
}
