/**
 * The `/chat` handler `handle_post`: it refuses an empty query, otherwise
 * runs the dispatch loop with its default of three rounds and shapes what
 * the loop returns into a `Response`.
 */
module Forge {

  import opened Wrappers
  import opened Json
  import Parser
  import opened React

  datatype Status = Success | Error

  /** The `Response` record: a status, a message and the loop's output as
      optional data. */
  datatype Response = Response(status: Status, message: string, data: Option<LoopOutput>)

  /** Why `handle_post` raises instead of answering: the loop raised, or
      the `Response` record rejected a `message` that is not a string
      (`None`, from a reply without a `Response:` line). */
  datatype HandlerError = LoopRaised(cause: LoopError) | MessageNotString

  /** The `max_steps` the handler leaves at its default. */
  const DefaultMaxSteps := 3

  const EmptyQueryMessage := "Query is empty"
  const ScaffoldedMessage := "Project scaffolded successfully"

  /** Python truthiness of the loop's `action` entry. */
  predicate ActionTaken(action: Option<string>) {
    action.Some? && action.value != ""
  }

  /** The response the handler builds from the loop's output. */
  function Shape(data: LoopOutput): Result<Response, HandlerError> {
    if ActionTaken(data.action) then Ok(Response(Success, ScaffoldedMessage, Some(data)))
    else match data.response
      case None => Err(MessageNotString)
      case Some(m) => Ok(Response(Success, m, None))
  }

  /** What `handle_post` returns for `query`, or the exception it lets
      out. */
  function Respond(query: string, oracle: Oracle, decode: Decoder): Result<Response, HandlerError> {
    if query == "" then Ok(Response(Error, EmptyQueryMessage, None))
    else match LoopResult(Run(DefaultMaxSteps, oracle, decode))
      case Err(e) => Err(LoopRaised(e))
      case Ok(data) => Shape(data)
  }

  /** `handle_post(ctx, req)` for `req.query == query`, returning besides
      the response the prompts the loop sent. */
  method HandlePost(query: string, oracle: Oracle, decode: Decoder) returns (r: Result<Response, HandlerError>, prompts: seq<string>)
    ensures r == Respond(query, oracle, decode)
    ensures query == "" ==> prompts == []
    ensures query != "" ==> |prompts| == Run(DefaultMaxSteps, oracle, decode).rounds && AllAre(prompts, PromptFor(query))
  {
    if query == "" {
      return Ok(Response(Error, EmptyQueryMessage, None)), [];
    }
    var data, calls;
    data, prompts, calls := BeginReactLoop(query, DefaultMaxSteps, oracle, decode);
    match data
    case Err(e) =>
      r := Err(LoopRaised(e));
    case Ok(data) =>
      if data.action.Some? && data.action.value != "" {
        r := Ok(Response(Success, ScaffoldedMessage, Some(data)));
      } else if data.response.None? {
        r := Err(MessageNotString);
      } else {
        r := Ok(Response(Success, data.response.value, None));
      }
  }

  /** An empty query is answered with an error and the loop never runs;
      the error status arises from nothing else. */
  lemma ErrorOnlyForEmptyQuery(query: string, oracle: Oracle, decode: Decoder)
    ensures query == "" ==> Respond(query, oracle, decode) == Ok(Response(Error, "Query is empty", None))
    ensures Respond(query, oracle, decode).Ok? ==> (Respond(query, oracle, decode).value.status == Error <==> query == "")
  {
  }

  /** With three rounds allowed, the loop always binds a decision, so the
      only exception the loop call lets through is a failed model call,
      and it comes from the last round the loop ran. */
  lemma LoopRaisesOnlyOnModelFailure(query: string, oracle: Oracle, decode: Decoder)
    ensures var r := Respond(query, oracle, decode);
      r.Err? && r.error.LoopRaised? ==>
        var n := Run(DefaultMaxSteps, oracle, decode).rounds;
        && r.error.cause == LlmCallFailed
        && 1 <= n <= DefaultMaxSteps
        && oracle(n - 1).reply.CallFailed?
  {
    OutcomeOfLastRound(DefaultMaxSteps, oracle, decode);
    ModelCallsBounded(DefaultMaxSteps, oracle, decode);
  }

  /** For a non-empty query on which the loop returns, the answer follows
      the last reply. If it named an action (registered or not, run or
      failed), the status is success, the message says the project was
      scaffolded and the loop's output is attached. Otherwise, with a
      `Response:` text the status is success, the message is that text and
      nothing is attached; without one, the handler raises. */
  lemma SuccessFollowsLastReply(query: string, oracle: Oracle, decode: Decoder)
    requires query != ""
    requires LoopResult(Run(DefaultMaxSteps, oracle, decode)).Ok?
    ensures var t := Run(DefaultMaxSteps, oracle, decode);
      var n := t.rounds;
      && n > 0 && RepliedBefore(oracle, n)
      && var d := Parser.Parse(oracle(n - 1).reply.content, decode);
         var r := Respond(query, oracle, decode);
         var response := Parser.TextOf(d, Parser.Field.Response);
         && (ActionTaken(Parser.TextOf(d, Parser.Field.Action)) ==>
               r == Ok(Response(Success, "Project scaffolded successfully",
                                Some(LoopOutput(Parser.TextOf(d, Parser.Thought), Parser.TextOf(d, Parser.Field.Action), t.result, response)))))
         && (!ActionTaken(Parser.TextOf(d, Parser.Field.Action)) && response.Some? ==>
               r == Ok(Response(Success, response.value, None)))
         && (!ActionTaken(Parser.TextOf(d, Parser.Field.Action)) && response.None? ==>
               r == Err(MessageNotString))
  {
    OutcomeOfLastRound(DefaultMaxSteps, oracle, decode);
  }
}
