/** The request schemas of `zodSchemas/authSchemas.ts`. Unlike those of
    `lib/validations.ts` they describe the whole request: the credentials
    sit under `body`. */
module AuthSchemas {
  import opened Common
  import opened Schemas
  import V = Validations

  const AuthSchema := SObject([
    Field("username", SString(Bounds(Some(4), Some(20), None))),
    Field("email", SEmail),
    Field("password", SString(Bounds(Some(8), None, None)))])

  const UserRegisterSchema := SObject([Field("body", Required(AuthSchema))])

  const UserLoginSchema := SObject([Field("body", Required(Omit(AuthSchema, {"username"})))])

  const OnBoardingSchema := SObject([Field("body", Required(SObject([
    Field("journey", SString(Bounds(Some(4), None, None))),
    Field("ambitions", SArray(V.AnyString, Bounds(Some(1), None, None))),
    Field("tech", SArray(V.AnyString, Bounds(Some(1), None, None))),
    Field("id", V.IdString)])))])

  const QueryParamsSchema := SObject([
    Field("postType", SOptional(V.AnyString)),
    Field("page", SOptional(V.AnyString))])

  const FollowSchema := SObject([Field("followid", V.AnyString)])

  /** This file's `authSchema` is the same schema as the one in
      `lib/validations.ts`, and so are the derived register, login and
      on-boarding schemas once they are taken out of `body`. */
  lemma SameAsValidations()
    ensures AuthSchema == V.AuthSchema
    ensures UserRegisterSchema == SObject([Field("body", V.UserRegisterSchema)])
    ensures UserLoginSchema == SObject([Field("body", V.UserLoginSchema)])
    ensures OnBoardingSchema == SObject([Field("body", V.OnBoardingSchema)])
  {
  }

  /** Registration: `body` is an object with a username of 4 to 20
      characters, an e-mail address and a password of at least 8. */
  lemma UserRegisterAccepts(env: Env, v: Json)
    ensures Accepts(env, UserRegisterSchema, Some(v)) <==>
      v.JObject? && Get(v, "body").Some? &&
      var b := Get(v, "body").value;
      b.JObject? && V.StringBetween(Get(b, "username"), 4, 20)
      && V.IsEmail(env, Get(b, "email")) && V.StringAtLeast(Get(b, "password"), 8)
  {
    SameAsValidations();
    V.UserRegisterIsAuth();
    OneFieldObject(env, Field("body", V.AuthSchema), v);
    if Get(v, "body").Some? {
      V.AuthSchemaAccepts(env, Get(v, "body").value);
    }
  }

  /** Login: `body` has an e-mail address and a password of at least 8
      characters; the username plays no part. */
  lemma UserLoginAccepts(env: Env, v: Json)
    ensures Accepts(env, UserLoginSchema, Some(v)) <==>
      v.JObject? && Get(v, "body").Some? &&
      var b := Get(v, "body").value;
      b.JObject? && V.IsEmail(env, Get(b, "email")) && V.StringAtLeast(Get(b, "password"), 8)
  {
    SameAsValidations();
    OneFieldObject(env, Field("body", V.UserLoginSchema), v);
    if Get(v, "body").Some? {
      V.UserLoginAccepts(env, Get(v, "body").value);
    }
  }

  /** Whatever request passes registration passes login. */
  lemma RegisterImpliesLogin(env: Env, v: Json)
    requires Accepts(env, UserRegisterSchema, Some(v))
    ensures Accepts(env, UserLoginSchema, Some(v))
  {
    UserRegisterAccepts(env, v);
    UserLoginAccepts(env, v);
  }

  /** On-boarding: `body` has a journey of at least 4 characters, at least
      one ambition and one technology, and a 36-character identifier. */
  lemma OnBoardingAccepts(env: Env, v: Json)
    ensures Accepts(env, OnBoardingSchema, Some(v)) <==>
      v.JObject? && Get(v, "body").Some? && V.ValidOnBoarding(Get(v, "body").value)
  {
    SameAsValidations();
    OneFieldObject(env, Field("body", V.OnBoardingSchema), v);
    if Get(v, "body").Some? {
      V.OnBoardingAccepts(env, Get(v, "body").value);
    }
  }

  /** The query parameters are both optional strings; the post type here is
      any string, not only a member of the enumeration. */
  lemma QueryParamsAccepts(env: Env, v: Json)
    ensures Accepts(env, QueryParamsSchema, Some(v)) <==>
      v.JObject? && V.OptionalString(Get(v, "postType")) && V.OptionalString(Get(v, "page"))
  {
    TwoFieldObject(env, Field("postType", SOptional(V.AnyString)), Field("page", SOptional(V.AnyString)), v);
  }

  /** So an empty query passes. */
  lemma QueryParamsAcceptsEmpty(env: Env)
    ensures Accepts(env, QueryParamsSchema, Some(JObject(map[])))
  {
    QueryParamsAccepts(env, JObject(map[]));
  }

  /** Following needs a `followid` string, of any length. */
  lemma FollowAccepts(env: Env, v: Json)
    ensures Accepts(env, FollowSchema, Some(v)) <==> v.JObject? && V.IsString(Get(v, "followid"))
  {
    OneFieldObject(env, Field("followid", V.AnyString), v);
  }
}
