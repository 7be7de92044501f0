# forge agent core in Dafny

This project models the decision logic of the forge scaffolding agent: the
parser that turns a language model's free-text reply into a decision, the
bounded dispatch loop (`begin_react_loop`) that calls a registered action
when the reply names one, and the `/chat` handler that turns the loop's
result into a response.

Modules, one per file:

- `Wrappers` (`wrappers.dfy`): `Option` and `Result`.
- `PyText` (`pytext.dfy`): the Python string operations the parser uses:
  `strip()` over Python's `isspace` set, `split` and `join` on one
  character, and `startswith`.
- `Json` (`json.dfy`): JSON values, and the one grammar rule of
  `json.loads` that the parser's behaviour depends on
  (`RejectsNonValueStart`).
- `Parser` (`parser.dfy`): `parse_llm_response` as a loop over lines
  (`ParseLlmResponse`), proved equal to a fold (`Parse`), with the
  properties of that fold.
- `Registry` (`registry.dfy`): the `ACTIONS` table and the catalog of
  actions listed in the prompt.
- `Prompt` (`prompt.dfy`): the prompt template and its two holes.
- `Tools` (`tools.dfy`): what calling an action function does as the loop
  sees it: a value returned or an exception raised.
- `React` (`react.dfy`): the loop as a method (`BeginReactLoop`). It is
  proved equal to a functional trace (`Run`), and the loop's properties are
  proved about that trace.
- `Forge` (`forge.dfy`): `handle_post` (`HandlePost`), proved equal to
  `Respond`.

The outside world enters the model as parameters:

- `Oracle`: for each round, the model's reply or a failed call, and how the
  Django toolchain would fare if it ran.
- `Decoder`: stands for `json.loads`.

Parser facts worth knowing:

- The `Action Args:` prefix is twelve characters long, but the parser
  slices the line from offset 11. The text handed to the decoder therefore
  always begins with `:`.
- Under the JSON rule, that text never decodes, so `action_args` is always
  `{}` (`Parser.ArgsAlwaysEmpty`).
- Every action is therefore called without arguments. The only way the
  loop can stop early is the Django scaffold building the default project
  `/tmp/myproject.zip` (`React.EarlyExitOnlyWithDefaultProject`).

## Model

| member | source | states |
|---|---|---|
| PyText.Strip | agent/src/react.py:83 | `strip()` never lengthens its text, and the result neither begins nor ends with whitespace |
| PyText.StripIsSlice | agent/src/react.py:83 | what `strip()` keeps is a contiguous slice of the text, and everything cut off on either side is whitespace |
| PyText.StripKeepsFirst | agent/src/react.py:93 | a text whose first character is not whitespace keeps that first character through `strip()` |
| PyText.StripIdempotent | agent/src/react.py:83 | stripping twice is stripping once |
| PyText.Split | agent/src/react.py:83 | `split("\n")` gives at least one piece, no piece contains the separator, and joining the pieces with it gives back the text |
| PyText.SplitPeel | agent/src/react.py:83 | splitting a separator-free piece followed by the separator peels off that piece |
| PyText.SplitWhole | agent/src/react.py:83 | a text without the separator splits into itself alone |
| PyText.SplitJoin | agent/src/react.py:83 | `split` undoes `join` when no piece contains the separator |
| Json.SkipJsonSpace | agent/src/react.py:93 | the whitespace `json.loads` skips is a prefix of the text, and what is left does not begin with such whitespace |
| Json.ColonIsRejected | agent/src/react.py:92-95 | a decoder that obeys the JSON rule rejects every text that begins with `:` |
| Parser.FieldOfPrefix | agent/src/react.py:87-96 | the four prefixes exclude one another, so a line fills a key exactly when it starts with that key's prefix, whatever the order of the `elif` chain |
| Parser.ParseLlmResponse | agent/src/react.py:70-99 | the loop over the stripped, split lines builds exactly the dictionary `Parse` describes |
| Parser.StepIsChain | agent/src/react.py:86-97 | one line updates the dictionary as the `if`/`elif` chain does: 8, 7, 11 and 9 leading characters dropped and the rest stripped; a decode failure gives `{}`; any other line changes nothing |
| Parser.FoldKeepsUnmentioned | agent/src/react.py:86-97 | lines that do not fill a key leave its presence and value as they were |
| Parser.FoldLastWins | agent/src/react.py:86-97 | when several lines fill a key, the last such line gives its value |
| Parser.FoldKeys | agent/src/react.py:84-97 | after the loop, a key is present exactly when it was present before or some line fills it |
| Parser.FoldAppend | agent/src/react.py:86-97 | the loop over two blocks of lines is the loop over the first block, continued over the second |
| Parser.IgnoredLine | agent/src/react.py:86-97 | a line that starts with none of the four prefixes can be removed without changing the result |
| Parser.StepCommute | agent/src/react.py:86-97 | two lines that fill different keys give the same dictionary in either order |
| Parser.SwapDistinct | agent/src/react.py:86-97 | swapping two adjacent lines that fill different keys does not change the result |
| Parser.FoldWellTyped | agent/src/react.py:86-97 | `thought`, `action` and `response` always hold text, and `action_args` always holds a decoded JSON value |
| Parser.KeysByPrefix | agent/src/react.py:84-97 | starting from `{}`, a key is present exactly when some line starts with its prefix |
| Parser.ParseKeys | agent/src/react.py:83-99 | in the result of `parse_llm_response`, a key is present exactly when some line of the stripped text starts with its prefix |
| Parser.ParseLastWins | agent/src/react.py:83-97 | the value of a present key comes from the last line of the stripped text that starts with its prefix |
| Parser.IndentedLineIgnored | agent/src/react.py:83-97 | a line that begins with whitespace is ignored, because prefixes are tested on the untrimmed line |
| Parser.ArgsTextBeginsWithColon | agent/src/react.py:91-93 | the text handed to `json.loads` on an `Action Args:` line is non-empty and begins with `:` |
| Parser.FoldArgsEmpty | agent/src/react.py:91-95 | under the JSON rule, the loop keeps `action_args`, when present, equal to `{}` |
| Parser.ArgsAlwaysEmpty | agent/src/react.py:91-95 | under the JSON rule, `parse_llm_response` never stores anything but `{}` under `action_args` |
| Prompt.RenderInjective | agent/src/react.py:30-67 | with the catalog fixed, the rendered prompt determines the user input it was rendered for |
| Registry.Lookup | agent/src/react.py:9-28 | `ACTIONS[name]` is found exactly for the three registered keys, and the entry found is the one stored under that key, carrying that name |
| Registry.KeysAreNames | agent/src/react.py:9-28 | every registry key equals its entry's `name`, and no key is used twice |
| Registry.RegisteredInCatalog | agent/src/react.py:122-124 | every registered action has its line `- name: description` among the lines of the catalog |
| Registry.CatalogOnlyRegistered | agent/src/react.py:122-124 | every line of the catalog is `- name: description` for some registered name |
| Registry.CatalogSplits | agent/src/react.py:122-124 | the catalog puts each action on a line of its own: splitting it at line breaks gives back exactly the entries' lines, in order |
| Tools.ArchivePath | agent/src/tools.py:57 | the archive path ends in `.zip` and is either `/tmp/` followed by the project name, or the name itself when the name is an absolute path |
| Tools.TruthyOnlyFromDjango | agent/src/tools.py:9-81 | a call returns a truthy value exactly when it is `scaffold_django`, with at most a string `project_name` and every step succeeding; the value is then the archive path |
| Tools.DjangoWithoutArguments | agent/src/tools.py:9-71 | called with no arguments, `scaffold_django` returns `/tmp/myproject.zip`, returns `None` after a failed step, or raises from its `finally` clause |
| Tools.RaisesOnlyFromCleanup | agent/src/tools.py:62-81 | besides the `TypeError` of a mismatched call, the only exception an action lets out comes from the Django scaffold's clean-up |
| React.BeginReactLoop | agent/src/react.py:100-153 | the loop returns or raises as the trace `Run` says and calls the actions that trace records; it sends one prompt per round, and every prompt is the template filled with the catalog and the user's input |
| React.ReplyRound | agent/src/react.py:130-146 | a round that got a reply parses it, dispatches only past the guard, keeps `result` when the action raises, and reports a truthy result as the reason to stop, all as one step of `Run` |
| React.DispatchIffRegistered | agent/src/react.py:136-140 | a round calls an action exactly when the parsed name is non-empty and registered, and then calls the registered function with the parsed arguments |
| React.ModelCallsBounded | agent/src/react.py:119-146 | the loop calls the model at most `max_steps` times, exactly that often unless a model call raised or a truthy result stopped it, and calls at most one action per round |
| React.TruthyResultIffEarlyExit | agent/src/react.py:139-142 | the returned `result` is truthy exactly when a truthy action result ended the loop early; that result came from the last call, which was to `scaffold_django` |
| React.OnlyRegisteredDispatched | agent/src/react.py:136-138 | every dispatched name is non-empty and a key of `ACTIONS`, whatever the model replies |
| React.ResultIsLastReturned | agent/src/react.py:118-144 | the returned `result` is the value of the last action call that did not raise, or `None` if none did |
| React.OutcomeOfLastRound | agent/src/react.py:119-153 | the loop raises exactly when its last model call raised, or when `max_steps` allows no round so that `decision` is unbound; otherwise it returns the thought, action and response of the last reply |
| React.EarlyExitOnlyWithDefaultProject | agent/src/react.py:91-142 | under the JSON rule, every action is called without arguments, and a truthy `result` is always `/tmp/myproject.zip` |
| Forge.HandlePost | agent/src/forge.py:42-64 | the handler answers as `Respond` says; it sends no prompt for an empty query, and otherwise the loop's prompts, all for the query |
| Forge.ErrorOnlyForEmptyQuery | agent/src/forge.py:55-64 | an empty query is answered with status `error` and `Query is empty`, and the `error` status arises from nothing else |
| Forge.LoopRaisesOnlyOnModelFailure | agent/src/forge.py:58 | with three rounds allowed, the only exception the loop call lets through is a failed model call, and it comes from the last round the loop ran |
| Forge.SuccessFollowsLastReply | agent/src/forge.py:58-64 | for a non-empty query on which the loop returns: if the last reply named an action (registered or not, run or failed), the status is `success`, the message is `Project scaffolded successfully` and the loop's output is attached. Otherwise, with a `Response:` text the status is `success`, the message is that text and no data is attached. Without one, building the `Response` record raises, because its `message` must be a string |

## Left out

- The language-model call (`call_llm` in `agent/src/llm.py`, which is not part of this model) is an oracle. Each round receives either the content of the reply or a failed call. The HTTP request, the prompt's delivery and the shape of the JSON reply are not modelled.
- `json.loads` is a parameter. The model assumes only the grammar rule stated as `Json.RejectsNonValueStart`, and only where a lemma requires it. It assumes that every rejected document raises `JSONDecodeError`. Any other exception from `json.loads` is not modelled.
- The filesystem and subprocess steps of `scaffold_django` (temporary directory, virtual environment, `pip`, `startproject`, the archive and the move) are not computed. Their result is the `Toolchain` outcome of the round.
- Logging through `ctx.logger`, and the `ctx` object itself, are left out; they do not affect any returned value.
- The `args=` keyword that each registry entry passes is not a field of the `Action` record, so the registry is modelled with the record's three fields only. Constructing `Action` with that keyword is not modelled.
- The `action_args` entry is not returned by the loop, so nothing about it appears in `LoopOutput`.
- Validation of the `Response` record is modelled only for `message`, the one field the handler can fill with a value of the wrong type. A `None` message is rejected (`Forge.MessageNotString`); the exception's type and text are not modelled.
- The rate limiter and the back-off retry around `handle_post` (`agent/src/decorators.py`) are not modelled; they depend on time.
- The startup handler, the wallet and ledger queries, the message handler, `agent/src/agent.py`, `agent/src/utils.py`, `agent/src/config.py` and the web UI are not part of this model.
- React.BeginReactLoop: the prompt is formatted once, before the loop. The source formats it again in each round, but with the same arguments, so every prompt has the same value.
