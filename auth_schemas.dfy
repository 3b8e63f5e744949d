/** The request-body schemas of the auth endpoints (server/src/modules/auth/schemas.js) as
    predicates, with the typed inputs an accepted body is parsed into. Lengths are counted
    in characters; whether a string is an e-mail address is the parameter `isEmail`. */
module AuthSchemas {
  import opened Wrappers
  import Json

  const MinNameLength := 2
  const MinPasswordLength := 8
  const MaxPasswordLength := 128
  const MinRefreshTokenLength := 20

  predicate PasswordValue(v: Json.Value)
  {
    v.Str? && MinPasswordLength <= |v.s| <= MaxPasswordLength
  }

  predicate EmailValue(v: Json.Value, isEmail: string -> bool)
  {
    v.Str? && isEmail(v.s)
  }

  /** `registerSchema`. */
  predicate RegisterSchema(body: Json.Value, isEmail: string -> bool)
  {
    body.Obj?
    && Json.Get(body, "name").Str? && |Json.Get(body, "name").s| >= MinNameLength
    && EmailValue(Json.Get(body, "email"), isEmail)
    && PasswordValue(Json.Get(body, "password"))
  }

  /** `loginSchema`. */
  predicate LoginSchema(body: Json.Value, isEmail: string -> bool)
  {
    body.Obj? && EmailValue(Json.Get(body, "email"), isEmail) && PasswordValue(Json.Get(body, "password"))
  }

  /** `refreshSchema`, used by both the refresh and the logout endpoint. */
  predicate RefreshSchema(body: Json.Value)
  {
    body.Obj? && Json.Get(body, "refreshToken").Str? && |Json.Get(body, "refreshToken").s| >= MinRefreshTokenLength
  }

  datatype RegisterInput = RegisterInput(name: string, email: string, password: string)
  datatype LoginInput = LoginInput(email: string, password: string)

  function ParseRegister(body: Json.Value, isEmail: string -> bool): (r: Option<RegisterInput>)
    ensures r.Some? <==> RegisterSchema(body, isEmail)
    ensures r.Some? ==> |r.value.name| >= MinNameLength && isEmail(r.value.email)
                        && MinPasswordLength <= |r.value.password| <= MaxPasswordLength
  {
    if RegisterSchema(body, isEmail) then
      Some(RegisterInput(Json.Get(body, "name").s, Json.Get(body, "email").s, Json.Get(body, "password").s))
    else None
  }

  function ParseLogin(body: Json.Value, isEmail: string -> bool): (r: Option<LoginInput>)
    ensures r.Some? <==> LoginSchema(body, isEmail)
    ensures r.Some? ==> isEmail(r.value.email) && MinPasswordLength <= |r.value.password| <= MaxPasswordLength
  {
    if LoginSchema(body, isEmail) then
      Some(LoginInput(Json.Get(body, "email").s, Json.Get(body, "password").s))
    else None
  }

  function ParseRefreshToken(body: Json.Value): (r: Option<string>)
    ensures r.Some? <==> RefreshSchema(body)
    ensures r.Some? ==> |r.value| >= MinRefreshTokenLength
  {
    if RefreshSchema(body) then Some(Json.Get(body, "refreshToken").s) else None
  }

  /** The body that registered an account also passes the login schema, with the same
      e-mail and password: the two schemas agree on credentials. */
  lemma RegisteredCredentialsPassLogin(body: Json.Value, isEmail: string -> bool)
    requires RegisterSchema(body, isEmail)
    ensures ParseLogin(body, isEmail) == Some(LoginInput(ParseRegister(body, isEmail).value.email, ParseRegister(body, isEmail).value.password))
  {
  }

  /** A password of fewer than 8 or more than 128 characters is rejected by both schemas,
      before any service code runs. */
  lemma PasswordOutsideBoundsRejected(body: Json.Value, isEmail: string -> bool)
    requires Json.Get(body, "password").Str?
    requires |Json.Get(body, "password").s| < MinPasswordLength || |Json.Get(body, "password").s| > MaxPasswordLength
    ensures ParseRegister(body, isEmail).None? && ParseLogin(body, isEmail).None?
  {
  }
}
