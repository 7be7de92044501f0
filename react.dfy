/**
 * `begin_react_loop`: at most `max_steps` rounds, each of which sends the
 * same prompt to the language model, parses the reply and, when the reply
 * names a registered action, calls that action. A truthy result ends the
 * loop early; an exception from the action is swallowed.
 *
 * The language model is an oracle: round `i` (counting from 0) gets the
 * `i`-th entry of an endless script, which holds either the reply's
 * content or a failed call, and the outcome the toolchain would have if
 * an action ran in that round. JSON decoding is the `decode` parameter,
 * as in the parser.
 */
module React {

  import opened Wrappers
  import opened Json
  import opened Parser
  import opened Registry
  import opened Prompt
  import opened Tools

  /** The content of the model's reply (`choices[0].message.content`), or a
      call that raised. */
  datatype LlmReply = Reply(content: string) | CallFailed

  /** What the outside world does in one round. */
  datatype RoundInput = RoundInput(reply: LlmReply, toolchain: Toolchain)

  /** The script of rounds, indexed by the loop's `step`. */
  type Oracle = nat -> RoundInput

  /** One dispatched action: the name it was looked up by, the arguments
      it was called with and what the call did. */
  datatype Call = Call(name: string, args: Json, outcome: Outcome)

  /** Why the loop raises instead of returning: the model call raised, or
      no round ran, so `decision` is unbound at the `return`. */
  datatype LoopError = LlmCallFailed | DecisionUnbound

  /** The dictionary the loop returns. */
  datatype LoopOutput = LoopOutput(thought: Option<string>, action: Option<string>, result: PyValue, response: Option<string>)

  /** The loop's history so far: how many model calls it made, the actions
      it called, the variable `result`, the last parsed decision (`None`
      while unbound), whether a model call raised and whether a truthy
      result stopped the loop. */
  datatype Trace = Trace(
    rounds: nat,
    calls: seq<Call>,
    result: PyValue,
    decision: Option<Decision>,
    failed: bool,
    stopped: bool)

  const Start := Trace(0, [], PyNone, None, false, false)

  /** The dispatch guard `action_name and action_name in ACTIONS`. */
  predicate Dispatches(name: Option<string>) {
    name.Some? && name.value != "" && Lookup(name.value).Some?
  }

  /** How a reply's content becomes a decision: `parse_llm_response` with a
      given JSON decoder (see `ParserOf`). The rounds are stated for any
      such function, so that reasoning about them does not look inside the
      parser. */
  type ReplyParser = string -> Decision

  /** `parse_llm_response`, with `decode` for `json.loads`. */
  function ParserOf(decode: Decoder): ReplyParser {
    content => Parse(content, decode)
  }

  /** One round of the loop, after the prompt is rendered. */
  function Round(input: RoundInput, parse: ReplyParser, t: Trace): Trace {
    var t := t.(rounds := t.rounds + 1);
    match input.reply
    case CallFailed => t.(failed := true)
    case Reply(content) =>
      var d := parse(content);
      var name := TextOf(d, Field.Action);
      var t := t.(decision := Some(d));
      if !Dispatches(name) then t
      else
        var args := ArgsOf(d);
        var o := Invoke(Lookup(name.value).value.fn, args, input.toolchain);
        var t := t.(calls := t.calls + [Call(name.value, args, o)]);
        match o
        case Raised(_) => t
        case Returned(v) => t.(result := v, stopped := Truthy(v))
  }

  /** The rounds from `step` on, until `max_steps` is reached, a model call
      raises or an action returns a truthy value. */
  function RunFrom(maxSteps: int, oracle: Oracle, parse: ReplyParser, step: nat, t: Trace): Trace
    decreases maxSteps - step
  {
    if step >= maxSteps then t
    else
      var t' := Round(oracle(step), parse, t);
      if t'.failed || t'.stopped then t' else RunFrom(maxSteps, oracle, parse, step + 1, t')
  }

  /** The whole loop. */
  function Run(maxSteps: int, oracle: Oracle, decode: Decoder): Trace {
    RunFrom(maxSteps, oracle, ParserOf(decode), 0, Start)
  }

  /** What the loop returns or raises at its end. */
  function LoopResult(t: Trace): Result<LoopOutput, LoopError> {
    if t.failed then Err(LlmCallFailed)
    else match t.decision
      case None => Err(DecisionUnbound)
      case Some(d) => Ok(LoopOutput(TextOf(d, Thought), TextOf(d, Field.Action), t.result, TextOf(d, Response)))
  }

  /** The prompt of every round: the template filled with the catalog and
      the user's input. */
  function PromptFor(userInput: string): string {
    Render(Catalog(), userInput)
  }

  /** Every entry of `s` is `x`. */
  predicate AllAre<T(==)>(s: seq<T>, x: T) {
    forall i :: 0 <= i < |s| ==> s[i] == x
  }

  /** `begin_react_loop(ctx, user_input, max_steps)`, returning besides its
      result the prompts it sent, one per round and all the same, and the
      actions it called. */
  method BeginReactLoop(userInput: string, maxSteps: int, oracle: Oracle, decode: Decoder)
    returns (out: Result<LoopOutput, LoopError>, prompts: seq<string>, calls: seq<Call>)
    ensures var t := Run(maxSteps, oracle, decode);
      out == LoopResult(t) && calls == t.calls && |prompts| == t.rounds
    ensures AllAre(prompts, PromptFor(userInput))
  {
    var step: nat := 0;
    var result := PyNone;
    var decision: Option<Decision> := None;
    var actionName: Option<string> := None;
    prompts, calls := [], [];

    var actionDescriptions := Catalog();
    ghost var final := Run(maxSteps, oracle, decode);
    // `PROMPT.format(...)` has the same arguments in every round, so its
    // value is computed once
    var prompt := Render(actionDescriptions, userInput);

    while step < maxSteps
      invariant |prompts| == step && AllAre(prompts, prompt)
      invariant RunFrom(maxSteps, oracle, ParserOf(decode), step, Trace(step, calls, result, decision, false, false)) == final
      invariant decision.Some? ==> actionName == TextOf(decision.value, Field.Action)
      decreases maxSteps - step
    {
      var input := oracle(step);
      prompts := prompts + [prompt];
      if input.reply.CallFailed? {
        out := Err(LlmCallFailed);
        return;
      }
      var d, stop;
      d, actionName, calls, result, stop := ReplyRound(input, decode, calls, result, Trace(step, calls, result, decision, false, false));
      decision := Some(d);
      if stop {
        break;
      }
      step := step + 1;
    }

    match decision
    case None =>
      out := Err(DecisionUnbound);
    case Some(d) =>
      out := Ok(LoopOutput(TextOf(d, Thought), actionName, result, TextOf(d, Response)));
  }

  /** The part of a round after the model replied: parse the reply and,
      when the guard passes, call the action, swallowing what it raises.
      `stop` tells whether the result is truthy, which breaks the loop. */
  method ReplyRound(input: RoundInput, decode: Decoder, calls: seq<Call>, result: PyValue, ghost t: Trace)
    returns (d: Decision, actionName: Option<string>, calls': seq<Call>, result': PyValue, stop: bool)
    requires input.reply.Reply?
    requires t.calls == calls && t.result == result && !t.failed && !t.stopped
    ensures Round(input, ParserOf(decode), t) == Trace(t.rounds + 1, calls', result', Some(d), false, stop)
    ensures d == Parse(input.reply.content, decode) && actionName == TextOf(d, Field.Action)
  {
    d := ParseLlmResponse(input.reply.content, decode);
    assert d == ParserOf(decode)(input.reply.content);
    actionName := TextOf(d, Field.Action);
    calls', result', stop := calls, result, false;
    if actionName.Some? && actionName.value != "" && Lookup(actionName.value).Some? {
      var action := Lookup(actionName.value).value;
      var args := ArgsOf(d);
      var o := Invoke(action.fn, args, input.toolchain);
      calls' := calls + [Call(actionName.value, args, o)];
      if o.Returned? {
        result' := o.value;
        stop := Truthy(result');
      }
    }
  }

  /** A round adds a call to the trace exactly when the parsed action name
      passes the dispatch guard, and the call is then the registered
      function applied to the parsed arguments. */
  lemma DispatchIffRegistered(input: RoundInput, parse: ReplyParser, t: Trace)
    requires input.reply.Reply?
    ensures var d := parse(input.reply.content);
      var name := TextOf(d, Field.Action);
      var r := Round(input, parse, t);
      && (Dispatches(name) <==> |r.calls| == |t.calls| + 1)
      && (!Dispatches(name) ==> r.calls == t.calls)
      && (Dispatches(name) ==>
            r.calls == t.calls + [Call(name.value, ArgsOf(d), Invoke(Lookup(name.value).value.fn, ArgsOf(d), input.toolchain))])
  {
  }

  // ---- number of rounds ----

  /** The number of rounds `max_steps` allows. */
  function Bound(maxSteps: int): nat {
    if maxSteps > 0 then maxSteps else 0
  }

  lemma {:induction false} CountFrom(maxSteps: int, oracle: Oracle, parse: ReplyParser, step: nat, t: Trace)
    requires t.rounds == step && |t.calls| <= step && !t.failed && !t.stopped
    ensures var r := RunFrom(maxSteps, oracle, parse, step, t);
      && r.rounds <= (if maxSteps > step then maxSteps else step)
      && |r.calls| <= r.rounds
      && !(r.failed && r.stopped)
      && (r.failed || r.stopped ==> r.rounds > step)
      && (!r.failed && !r.stopped ==> r.rounds == (if maxSteps > step then maxSteps else step))
    decreases maxSteps - step
  {
    if step < maxSteps {
      var t' := Round(oracle(step), parse, t);
      assert t'.rounds == step + 1 && |t'.calls| <= step + 1;
      if !(t'.failed || t'.stopped) {
        CountFrom(maxSteps, oracle, parse, step + 1, t');
      }
    }
  }

  /** The loop calls the model at most `max_steps` times, and exactly that
      often unless a model call raised or an action's truthy result stopped
      it; it calls at most one action per round. */
  lemma ModelCallsBounded(maxSteps: int, oracle: Oracle, decode: Decoder)
    ensures var t := Run(maxSteps, oracle, decode);
      && t.rounds <= Bound(maxSteps)
      && |t.calls| <= t.rounds
      && (!t.failed && !t.stopped ==> t.rounds == Bound(maxSteps))
      && (t.failed || t.stopped ==> t.rounds >= 1)
      && !(t.failed && t.stopped)
  {
    CountFrom(maxSteps, oracle, ParserOf(decode), 0, Start);
  }

  // ---- early exit ----

  lemma {:induction false} StopFrom(maxSteps: int, oracle: Oracle, parse: ReplyParser, step: nat, t: Trace)
    requires !Truthy(t.result) && !t.failed && !t.stopped
    ensures var r := RunFrom(maxSteps, oracle, parse, step, t);
      && (Truthy(r.result) <==> r.stopped)
      && (r.stopped ==> |r.calls| > 0 && r.calls[|r.calls| - 1].name == "scaffold_django"
                        && r.calls[|r.calls| - 1].outcome == Returned(r.result))
    decreases maxSteps - step
  {
    if step < maxSteps {
      var t' := Round(oracle(step), parse, t);
      if !(t'.failed || t'.stopped) {
        StopFrom(maxSteps, oracle, parse, step + 1, t');
      }
    }
  }

  /** The returned `result` is truthy exactly when a truthy action result
      ended the loop early; that result came from the last call, and the
      call was to the Django scaffold, since the other two actions always
      raise. */
  lemma TruthyResultIffEarlyExit(maxSteps: int, oracle: Oracle, decode: Decoder)
    ensures var t := Run(maxSteps, oracle, decode);
      && (Truthy(t.result) <==> t.stopped)
      && (t.stopped ==> |t.calls| > 0 && t.calls[|t.calls| - 1].name == "scaffold_django"
                        && t.calls[|t.calls| - 1].outcome == Returned(t.result))
  {
    StopFrom(maxSteps, oracle, ParserOf(decode), 0, Start);
  }

  // ---- dispatch guard ----

  /** Every name in `calls` passed the dispatch guard. */
  predicate AllRegistered(calls: seq<Call>) {
    forall j :: 0 <= j < |calls| ==> calls[j].name != "" && IsRegistered(calls[j].name)
  }

  lemma {:induction false} RegisteredFrom(maxSteps: int, oracle: Oracle, parse: ReplyParser, step: nat, t: Trace)
    requires AllRegistered(t.calls)
    ensures AllRegistered(RunFrom(maxSteps, oracle, parse, step, t).calls)
    decreases maxSteps - step
  {
    if step < maxSteps {
      var t' := Round(oracle(step), parse, t);
      assert AllRegistered(t'.calls);
      if !(t'.failed || t'.stopped) {
        RegisteredFrom(maxSteps, oracle, parse, step + 1, t');
      }
    }
  }

  /** Only non-empty names that are keys of the registry are ever
      dispatched, whatever the model replies. */
  lemma OnlyRegisteredDispatched(maxSteps: int, oracle: Oracle, decode: Decoder)
    ensures AllRegistered(Run(maxSteps, oracle, decode).calls)
  {
    RegisteredFrom(maxSteps, oracle, ParserOf(decode), 0, Start);
  }

  // ---- the value of `result` ----

  /** The value the last call that returned (rather than raised) returned,
      and `None` when there is none. */
  function LastReturned(calls: seq<Call>): PyValue {
    if |calls| == 0 then PyNone
    else if calls[|calls| - 1].outcome.Returned? then calls[|calls| - 1].outcome.value
    else LastReturned(calls[..|calls| - 1])
  }

  lemma LastReturnedAppend(calls: seq<Call>, c: Call)
    ensures LastReturned(calls + [c]) == if c.outcome.Returned? then c.outcome.value else LastReturned(calls)
  {
    assert (calls + [c])[..|calls|] == calls;
  }

  /** One round keeps `result` equal to the last value returned. */
  lemma RoundResult(input: RoundInput, parse: ReplyParser, t: Trace)
    requires t.result == LastReturned(t.calls)
    ensures var r := Round(input, parse, t);
      r.result == LastReturned(r.calls)
  {
    if input.reply.Reply? {
      DispatchIffRegistered(input, parse, t);
      var r := Round(input, parse, t);
      if |r.calls| != |t.calls| {
        LastReturnedAppend(t.calls, r.calls[|t.calls|]);
      }
    }
  }

  lemma {:induction false} ResultFrom(maxSteps: int, oracle: Oracle, parse: ReplyParser, step: nat, t: Trace)
    requires t.result == LastReturned(t.calls)
    ensures var r := RunFrom(maxSteps, oracle, parse, step, t);
      r.result == LastReturned(r.calls)
    decreases maxSteps - step
  {
    if step < maxSteps {
      var t' := Round(oracle(step), parse, t);
      RoundResult(oracle(step), parse, t);
      if !(t'.failed || t'.stopped) {
        ResultFrom(maxSteps, oracle, parse, step + 1, t');
      }
    }
  }

  /** The returned `result` is what the last action call that did not
      raise returned: a raising call leaves the earlier value in place, and
      before any call returns it is `None`. */
  lemma ResultIsLastReturned(maxSteps: int, oracle: Oracle, decode: Decoder)
    ensures var t := Run(maxSteps, oracle, decode);
      t.result == LastReturned(t.calls)
  {
    ResultFrom(maxSteps, oracle, ParserOf(decode), 0, Start);
  }

  // ---- the model call and the returned decision ----

  /** The model answered every one of the first `n` rounds. */
  predicate RepliedBefore(oracle: Oracle, n: nat) {
    forall i: nat :: i < n ==> oracle(i).reply.Reply?
  }

  /** The decision of the last of `n` answered rounds (`None` for none). */
  function LastDecision(oracle: Oracle, parse: ReplyParser, n: nat): Option<Decision>
    requires RepliedBefore(oracle, n)
  {
    if n == 0 then None else Some(parse(oracle(n - 1).reply.content))
  }

  lemma {:induction false} DecisionFrom(maxSteps: int, oracle: Oracle, parse: ReplyParser, step: nat, t: Trace)
    requires t.rounds == step && !t.failed && !t.stopped
    requires RepliedBefore(oracle, step) && t.decision == LastDecision(oracle, parse, step)
    ensures var r := RunFrom(maxSteps, oracle, parse, step, t);
      && (r.failed <==> r.rounds > 0 && oracle(r.rounds - 1).reply.CallFailed?)
      && (r.failed ==> RepliedBefore(oracle, r.rounds - 1))
      && (!r.failed ==> RepliedBefore(oracle, r.rounds) && r.decision == LastDecision(oracle, parse, r.rounds))
    decreases maxSteps - step
  {
    if step < maxSteps {
      var t' := Round(oracle(step), parse, t);
      if !t'.failed {
        assert RepliedBefore(oracle, step + 1);
      }
      if !(t'.failed || t'.stopped) {
        DecisionFrom(maxSteps, oracle, parse, step + 1, t');
      }
    }
  }

  /** How the loop ends. It raises exactly when the model call of its last
      round raised; every earlier round had a reply. Otherwise it raises
      only when `max_steps` allowed no round at all, leaving `decision`
      unbound; and when it returns, the thought, action and response are
      those of the last round's reply, and `result` is the variable's value. */
  lemma OutcomeOfLastRound(maxSteps: int, oracle: Oracle, decode: Decoder)
    ensures var t := Run(maxSteps, oracle, decode);
      var n := t.rounds;
      && (LoopResult(t) == Err(LlmCallFailed) <==> n > 0 && oracle(n - 1).reply.CallFailed?)
      && (LoopResult(t) == Err(LlmCallFailed) ==> RepliedBefore(oracle, n - 1))
      && (LoopResult(t) == Err(DecisionUnbound) <==> maxSteps <= 0)
      && (LoopResult(t).Ok? ==>
            && n > 0 && RepliedBefore(oracle, n)
            && var d := Parse(oracle(n - 1).reply.content, decode);
               LoopResult(t).value == LoopOutput(TextOf(d, Thought), TextOf(d, Field.Action), t.result, TextOf(d, Response)))
  {
    DecisionFrom(maxSteps, oracle, ParserOf(decode), 0, Start);
    CountFrom(maxSteps, oracle, ParserOf(decode), 0, Start);
  }

  // ---- what the loop can achieve under the JSON rule ----

  lemma {:induction false} ArgsFrom(maxSteps: int, oracle: Oracle, parse: ReplyParser, step: nat, t: Trace)
    requires forall content :: ArgsOf(parse(content)) == EmptyObject
    requires forall j :: 0 <= j < |t.calls| ==> t.calls[j].args == EmptyObject
    requires !t.stopped
    ensures var r := RunFrom(maxSteps, oracle, parse, step, t);
      && (forall j :: 0 <= j < |r.calls| ==> r.calls[j].args == EmptyObject)
      && (r.stopped ==> r.result == PyStr("/tmp/myproject.zip"))
    decreases maxSteps - step
  {
    if step < maxSteps {
      var input := oracle(step);
      var t' := Round(input, parse, t);
      DjangoWithoutArguments(input.toolchain);
      if !(t'.failed || t'.stopped) {
        ArgsFrom(maxSteps, oracle, parse, step + 1, t');
      }
    }
  }

  /** With a decoder that follows the JSON grammar, every action is called
      with no arguments (the arguments text always begins with `:`), so
      the only way the loop stops early is the Django scaffold building the
      default project: the truthy `result` is always `/tmp/myproject.zip`. */
  lemma EarlyExitOnlyWithDefaultProject(maxSteps: int, oracle: Oracle, decode: Decoder)
    requires RejectsNonValueStart(decode)
    ensures var t := Run(maxSteps, oracle, decode);
      && (forall j :: 0 <= j < |t.calls| ==> t.calls[j].args == EmptyObject)
      && (Truthy(t.result) ==> t.result == PyStr("/tmp/myproject.zip"))
  {
    forall content ensures ArgsOf(ParserOf(decode)(content)) == EmptyObject {
      ArgsAlwaysEmpty(content, decode);
    }
    ArgsFrom(maxSteps, oracle, ParserOf(decode), 0, Start);
    StopFrom(maxSteps, oracle, ParserOf(decode), 0, Start);
  }
}
