/** `validate(schema)` of `middlewares/authMiddleware.ts`: the schema
    describes the whole request, so it is applied to one object holding
    the body, the query and the parameters. */
module AuthMiddleware {
  import opened Common
  import opened Schemas
  import opened RequestValidation
  import M = Middleware
  import A = AuthSchemas
  import V = Validations

  /** The object `{ body, query, params }` handed to `schema.parse`. */
  function Wrap(req: M.Request): (w: Json)
    ensures w.JObject? && w.fields.Keys == {"body", "query", "params"}
    ensures Get(w, "body") == Some(req.body)
    ensures Get(w, "query") == Some(req.query)
    ensures Get(w, "params") == Some(req.params)
  {
    JObject(map["body" := req.body, "query" := req.query, "params" := req.params])
  }

  /** The middleware: parse the wrapped request and let the outcome decide. */
  function Validate(parse: Json -> ParseOutcome, req: M.Request): Decision {
    Decide(parse(Wrap(req)))
  }

  // ---------------------------------------------------------------------
  // Properties

  /** The request is handed on exactly when the wrapped request parses. */
  lemma NextIffParsed(parse: Json -> ParseOutcome, req: M.Request)
    ensures Validate(parse, req).Next? <==> parse(Wrap(req)).Parsed?
  {
  }

  /** A `ZodError` is answered with 400, "Invalid data" and one message per
      issue in issue order; any other error with 500. */
  lemma FailureAnswers(parse: Json -> ParseOutcome, req: M.Request)
    ensures var outcome := parse(Wrap(req));
      var d := Validate(parse, req);
      (outcome.ZodFailure? ==>
         d.Respond? && d.status == 400 && d.body.error == "Invalid data"
         && d.body.details == Some(IssueMessages(outcome.issues)))
      && (outcome.OtherFailure? ==>
         d.Respond? && d.status == 500 && d.body.details.None?)
  {
  }

  /** An issue about a field of the body, such as `["body", "email"]`, is
      reported under the field's name. */
  lemma BodyFieldIssueMessage(field: string, message: string)
    ensures IssueMessage(Issue([Key("body"), Key(field)], message)).message == field + ": " + message
  {
    LabelOfFieldIssue("body", field, []);
    assert [Key("body"), Key(field)] + [] == [Key("body"), Key(field)];
  }

  /** With a parser that implements the login schema, a request is handed
      on exactly when its body has an e-mail address and a password of at
      least 8 characters, whatever its query and parameters are. */
  lemma LoginNextIff(env: Env, parse: Json -> ParseOutcome, req: M.Request)
    requires Implements(env, parse, A.UserLoginSchema)
    ensures Validate(parse, req).Next? <==>
      req.body.JObject? && V.IsEmail(env, Get(req.body, "email"))
      && V.StringAtLeast(Get(req.body, "password"), 8)
  {
    var w := Wrap(req);
    assert parse(w).Parsed? <==> Accepts(env, A.UserLoginSchema, Some(w));
    A.UserLoginAccepts(env, w);
  }

  /** With a parser that implements the register schema, a request is handed
      on exactly when its body has a username of 4 to 20 characters, an
      e-mail address and a password of at least 8 characters. */
  lemma RegisterNextIff(env: Env, parse: Json -> ParseOutcome, req: M.Request)
    requires Implements(env, parse, A.UserRegisterSchema)
    ensures Validate(parse, req).Next? <==>
      req.body.JObject? && V.StringBetween(Get(req.body, "username"), 4, 20)
      && V.IsEmail(env, Get(req.body, "email")) && V.StringAtLeast(Get(req.body, "password"), 8)
  {
    var w := Wrap(req);
    assert parse(w).Parsed? <==> Accepts(env, A.UserRegisterSchema, Some(w));
    A.UserRegisterAccepts(env, w);
  }

  /** A request refused by a parser that implements its schema is always
      answered with 400, never with 500. */
  lemma RefusalIsBadRequest(env: Env, parse: Json -> ParseOutcome, schema: Schema, req: M.Request)
    requires Implements(env, parse, schema)
    requires !Validate(parse, req).Next?
    ensures Validate(parse, req).status == BadRequest
  {
    assert !parse(Wrap(req)).OtherFailure?;
  }
}
