/** `validate(schema, type)` of `middlewares/middleware.ts`: it picks one
    part of the request, parses it with the schema, and either hands the
    request on or answers it with an error. */
module Middleware {
  import opened Common
  import opened Schemas
  import opened RequestValidation

  /** The parts of an Express request that can be validated. */
  datatype Request = Request(body: Json, params: Json, query: Json)

  /** The values of the `ValidationType` enumeration. */
  const BodyType := "body"
  const ParamsType := "params"
  const QueryType := "query"

  /** The `switch` on the validation type: the request part it names, or
      `None` for a value outside the enumeration. */
  function SelectData(req: Request, validationType: string): (data: Option<Json>)
    ensures validationType == BodyType ==> data == Some(req.body)
    ensures validationType == ParamsType ==> data == Some(req.params)
    ensures validationType == QueryType ==> data == Some(req.query)
    ensures data.None? <==> validationType !in {BodyType, ParamsType, QueryType}
  {
    if validationType == BodyType then Some(req.body)
    else if validationType == ParamsType then Some(req.params)
    else if validationType == QueryType then Some(req.query)
    else None
  }

  /** The error answer for a validation type outside the enumeration. */
  const InvalidTypeAnswer := Respond(InternalServerError, ErrorBody("Invalid validation type", None))

  /** The middleware: an unknown type is answered with 500 before any
      parsing; otherwise the selected part is parsed and the outcome
      decides. */
  function Validate(parse: Json -> ParseOutcome, validationType: string, req: Request): Decision {
    match SelectData(req, validationType)
    case None => InvalidTypeAnswer
    case Some(data) => Decide(parse(data))
  }

  // ---------------------------------------------------------------------
  // Properties

  /** With an unknown type the parser is never consulted: any two parsers
      give the same answer, a 500. */
  lemma UnknownTypeIgnoresParser(p1: Json -> ParseOutcome, p2: Json -> ParseOutcome, t: string, req: Request)
    requires t != BodyType && t != ParamsType && t != QueryType
    ensures Validate(p1, t, req) == Validate(p2, t, req) == InvalidTypeAnswer
    ensures Validate(p1, t, req).Respond? && Validate(p1, t, req).body.details.None?
  {
  }

  /** Only the selected part of the request matters: two requests that
      agree on it get the same answer. */
  lemma OnlySelectedPartMatters(parse: Json -> ParseOutcome, t: string, r1: Request, r2: Request)
    requires SelectData(r1, t) == SelectData(r2, t)
    ensures Validate(parse, t, r1) == Validate(parse, t, r2)
  {
  }

  /** The request is handed on exactly when the type is known and the
      selected part parses. */
  lemma NextIffParsed(parse: Json -> ParseOutcome, t: string, req: Request)
    ensures Validate(parse, t, req).Next? <==>
      t in {BodyType, ParamsType, QueryType} && parse(SelectData(req, t).value).Parsed?
  {
  }

  /** A `ZodError` is answered with 400, "Invalid data" and one message per
      issue in issue order; any other error with 500. */
  lemma FailureAnswers(parse: Json -> ParseOutcome, t: string, req: Request)
    requires SelectData(req, t).Some?
    ensures var outcome := parse(SelectData(req, t).value);
      var d := Validate(parse, t, req);
      (outcome.ZodFailure? ==>
         d.Respond? && d.status == 400 && d.body.error == "Invalid data"
         && d.body.details == Some(IssueMessages(outcome.issues))
         && |d.body.details.value| == |outcome.issues|)
      && (outcome.OtherFailure? ==>
         d.Respond? && d.status == 500 && d.body.details.None?)
  {
  }

  /** With a parser that implements a schema, the request is handed on
      exactly when the schema accepts the selected part, and a refused
      request is answered with 400. */
  lemma NextIffAccepted(env: Env, parse: Json -> ParseOutcome, schema: Schema, t: string, req: Request)
    requires Implements(env, parse, schema)
    requires t in {BodyType, ParamsType, QueryType}
    ensures Validate(parse, t, req).Next? <==> Accepts(env, schema, SelectData(req, t))
    ensures !Validate(parse, t, req).Next? ==> Validate(parse, t, req).status == BadRequest
  {
    var data := SelectData(req, t).value;
    assert (parse(data).Parsed? <==> Accepts(env, schema, Some(data))) && !parse(data).OtherFailure?;
  }
}
