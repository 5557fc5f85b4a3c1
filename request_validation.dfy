/** What the two validation middlewares share: the outcome of
    `schema.parse`, the mapping from zod issues to `"label: message"`
    strings, and the decision between calling `next()` and answering with
    an error. */
module RequestValidation {
  import opened Common
  import opened Strings
  import opened Schemas

  /** One element of a zod issue path: an object key or an array index. */
  datatype PathKey = Key(name: string) | Index(n: nat)

  /** A zod issue: where in the input it is, and zod's message. */
  datatype Issue = Issue(path: seq<PathKey>, message: string)

  /** How `schema.parse(data)` ends: it returns, it throws a `ZodError`
      carrying its issues, or it throws something else. */
  datatype ParseOutcome = Parsed | ZodFailure(issues: seq<Issue>) | OtherFailure

  /** One entry of the `details` list of a 400 answer. */
  datatype ErrorMessage = ErrorMessage(message: string)

  /** The JSON body of an error answer. */
  datatype ErrorBody = ErrorBody(error: string, details: Option<seq<ErrorMessage>>)

  /** What the middleware does with the request: hand it on with `next()`,
      or answer it itself. */
  datatype Decision = Next | Respond(status: nat, body: ErrorBody)

  const BadRequest: nat := 400
  const InternalServerError: nat := 500

  /** A path element as a template literal renders it. */
  function RenderKey(k: PathKey): string {
    match k
    case Key(name) => name
    case Index(n) => NatToString(n)
  }

  /** The label of an issue: the second path element when there are at
      least two, else the first; a template literal renders the missing
      element of an empty path as `undefined`. */
  function Label(path: seq<PathKey>): string {
    if |path| > 1 then RenderKey(path[1])
    else if |path| == 1 then RenderKey(path[0])
    else "undefined"
  }

  /** The message for one issue. */
  function IssueMessage(issue: Issue): ErrorMessage {
    ErrorMessage(Label(issue.path) + ": " + issue.message)
  }

  /** `error.errors.map(...)`: one message per issue, in issue order. */
  function IssueMessages(issues: seq<Issue>): (r: seq<ErrorMessage>)
    ensures |r| == |issues|
    ensures forall i :: 0 <= i < |issues| ==> r[i] == IssueMessage(issues[i])
  {
    if issues == [] then [] else [IssueMessage(issues[0])] + IssueMessages(issues[1..])
  }

  /** The answer to a finished parse. */
  function Decide(outcome: ParseOutcome): (d: Decision)
    ensures d.Next? <==> outcome.Parsed?
    ensures outcome.ZodFailure? ==>
      d == Respond(BadRequest, ErrorBody("Invalid data", Some(IssueMessages(outcome.issues))))
    ensures outcome.OtherFailure? ==>
      d == Respond(InternalServerError, ErrorBody("Internal Server Error", None))
  {
    match outcome
    case Parsed => Next
    case ZodFailure(issues) => Respond(BadRequest, ErrorBody("Invalid data", Some(IssueMessages(issues))))
    case OtherFailure => Respond(InternalServerError, ErrorBody("Internal Server Error", None))
  }

  /** A parser that implements a schema: it returns exactly on the values
      the schema accepts, and otherwise throws a `ZodError`. */
  ghost predicate Implements(env: Env, parse: Json -> ParseOutcome, schema: Schema) {
    forall v :: (parse(v).Parsed? <==> Accepts(env, schema, Some(v))) && !parse(v).OtherFailure?
  }

  // ---------------------------------------------------------------------
  // Properties of the message mapping

  /** Mapping issues distributes over concatenation, so the messages of a
      batch of issues come in the batch's order. */
  lemma {:induction false} IssueMessagesConcat(a: seq<Issue>, b: seq<Issue>)
    ensures IssueMessages(a + b) == IssueMessages(a) + IssueMessages(b)
  {
    if a == [] {
      assert a + b == b;
    } else {
      assert (a + b)[1..] == a[1..] + b;
      IssueMessagesConcat(a[1..], b);
    }
  }

  /** A field of a request part, such as `["body", "email"]`, is labelled
      by the field's name, however deep the path goes below it. */
  lemma LabelOfFieldIssue(part: string, field: string, rest: seq<PathKey>)
    ensures Label([Key(part), Key(field)] + rest) == field
  {
    assert ([Key(part), Key(field)] + rest)[1] == Key(field);
  }

  /** A top-level field of the validated data, such as `["title"]`, is
      labelled by its own name. */
  lemma LabelOfTopLevelIssue(field: string)
    ensures Label([Key(field)]) == field
  {
  }

  /** Only the first two path elements decide the label. */
  lemma LabelIgnoresDeeperPath(path: seq<PathKey>, rest: seq<PathKey>)
    requires |path| == 2
    ensures Label(path + rest) == Label(path)
  {
    assert (path + rest)[1] == path[1];
  }

  /** Each message is the label, a colon and a space, then zod's text. */
  lemma IssueMessageParts(issue: Issue)
    ensures var m := IssueMessage(issue).message;
      var l := Label(issue.path);
      m[..|l|] == l && m[|l|..|l| + 2] == ": " && m[|l| + 2..] == issue.message
  {
  }

  /** For an issue inside an array of objects, the label is the array index
      and not the field name: `["members", 2, "userId"]` is labelled `2`. */
  lemma LabelOfArrayElementIssue(field: string, i: nat, inner: string)
    ensures Label([Key(field), Index(i), Key(inner)]) == NatToString(i)
  {
  }

  /** An issue about the input as a whole has an empty path and the label
      `undefined`. */
  lemma LabelOfRootIssue(message: string)
    ensures IssueMessage(Issue([], message)).message == "undefined: " + message
  {
  }
}
