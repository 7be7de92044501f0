/**
 * `parse_llm_response`: the model's free text becomes a decision, a
 * dictionary with at most the four keys `thought`, `action`, `action_args`
 * and `response`.
 *
 * The whole text is stripped and split on line feeds; each line is tested,
 * untrimmed, against four prefixes in a fixed order, and a matching line
 * overwrites its key. The texts of `thought`, `action` and `response` are the
 * rest of the line after the prefix, stripped. The text of `action_args`
 * is the line from offset 11 on, stripped, decoded as JSON; a decoding
 * error gives `{}`. The prefix `Action Args:` is 12 characters long, so that
 * text always begins with the prefix's own colon and never decodes: under
 * the JSON rule `action_args` is always `{}` (`ArgsAlwaysEmpty`).
 */
module Parser {

  import opened Wrappers
  import opened PyText
  import opened Json

  /** The keys of the decision dictionary. */
  datatype Field = Thought | Action | ActionArgs | Response

  /** A decision value: the three text fields hold a string, `action_args`
      holds whatever JSON value was decoded. */
  datatype Value = Text(text: string) | Parsed(json: Json)

  /** The dictionary `parse_llm_response` builds. */
  type Decision = map<Field, Value>

  /** The prefix that marks a line for each key. */
  function PrefixOf(k: Field): string {
    match k
    case Thought => "Thought:"
    case Action => "Action:"
    case ActionArgs => "Action Args:"
    case Response => "Response:"
  }

  /** Where the value text starts in a line for each key: the length of the
      prefix for three of them, one short of it for `action_args`. */
  function SliceStart(k: Field): nat {
    match k
    case Thought => 8
    case Action => 7
    case ActionArgs => 11
    case Response => 9
  }

  /** The key a line fills, by the `if`/`elif` chain over the prefixes (none
      for any other line). */
  function FieldOf(line: string): Option<Field> {
    if StartsWith(line, "Thought:") then Some(Thought)
    else if StartsWith(line, "Action:") then Some(Action)
    else if StartsWith(line, "Action Args:") then Some(ActionArgs)
    else if StartsWith(line, "Response:") then Some(Response)
    else None
  }

  /** The four prefixes exclude one another, so the order of the chain does
      not matter: a line fills a key exactly when it starts with that key's
      prefix. */
  lemma FieldOfPrefix(line: string, k: Field)
    ensures FieldOf(line) == Some(k) <==> StartsWith(line, PrefixOf(k))
  {
    if StartsWith(line, "Action:") {
      assert line[6] == ':';
      assert !StartsWith(line, "Action Args:") by { assert "Action Args:"[6] == ' '; }
    }
    if StartsWith(line, "Action Args:") {
      assert line[6] == ' ';
    }
  }

  /** The decoded arguments, or `{}` when decoding fails. */
  function DecodeOrEmpty(decode: Decoder, text: string): Json {
    match decode(text)
    case Some(v) => v
    case None => EmptyObject
  }

  /** The value a line of key `k` stores. */
  function ValueOf(line: string, k: Field, decode: Decoder): Value
    requires FieldOf(line) == Some(k)
  {
    var text := Strip(line[SliceStart(k)..]);
    if k == ActionArgs then Parsed(DecodeOrEmpty(decode, text)) else Text(text)
  }

  /** One turn of the loop body: a matching line overwrites its key. */
  function Step(d: Decision, line: string, decode: Decoder): Decision {
    match FieldOf(line)
    case None => d
    case Some(k) => d[k := ValueOf(line, k, decode)]
  }

  /** The loop over `lines`, starting from the dictionary `d`. */
  function Fold(d: Decision, lines: seq<string>, decode: Decoder): Decision
    decreases |lines|
  {
    if lines == [] then d else Fold(Step(d, lines[0], decode), lines[1..], decode)
  }

  /** The lines the parser looks at: the stripped text split on line feeds. */
  function Lines(response: string): seq<string> {
    Split(Strip(response), '\n')
  }

  /** What `parse_llm_response(response)` returns. */
  function Parse(response: string, decode: Decoder): Decision {
    Fold(map[], Lines(response), decode)
  }

  /** `parse_llm_response`, with the loop over the lines. */
  method ParseLlmResponse(response: string, decode: Decoder) returns (result: Decision)
    ensures result == Parse(response, decode)
  {
    var lines := Split(Strip(response), '\n');
    result := map[];
    for i := 0 to |lines|
      invariant Fold(result, lines[i..], decode) == Fold(map[], lines, decode)
    {
      var line := lines[i];
      ghost var before := result;
      if StartsWith(line, "Thought:") {
        result := result[Thought := Text(Strip(line[8..]))];
      } else if StartsWith(line, "Action:") {
        result := result[Action := Text(Strip(line[7..]))];
      } else if StartsWith(line, "Action Args:") {
        match decode(Strip(line[11..])) {
          case Some(v) => result := result[ActionArgs := Parsed(v)];
          case None => result := result[ActionArgs := Parsed(EmptyObject)];
        }
      } else if StartsWith(line, "Response:") {
        result := result[Response := Text(Strip(line[9..]))];
      }
      StepIsChain(before, line, decode);
      assert lines[i..] == [line] + lines[i + 1..];
    }
  }

  /** `Step` spelled out as the `if`/`elif` chain of the source. */
  lemma StepIsChain(d: Decision, line: string, decode: Decoder)
    ensures StartsWith(line, "Thought:") ==>
              Step(d, line, decode) == d[Thought := Text(Strip(line[8..]))]
    ensures (!StartsWith(line, "Thought:") && StartsWith(line, "Action:")) ==>
              Step(d, line, decode) == d[Action := Text(Strip(line[7..]))]
    ensures (!StartsWith(line, "Thought:") && !StartsWith(line, "Action:") && StartsWith(line, "Action Args:")) ==>
              Step(d, line, decode) == d[ActionArgs := Parsed(DecodeOrEmpty(decode, Strip(line[11..])))]
    ensures (!StartsWith(line, "Thought:") && !StartsWith(line, "Action:") && !StartsWith(line, "Action Args:")
             && StartsWith(line, "Response:")) ==>
              Step(d, line, decode) == d[Response := Text(Strip(line[9..]))]
    ensures FieldOf(line) == None ==> Step(d, line, decode) == d
  {
  }

  /** `lines[i]` is the last line that fills key `k`. */
  predicate IsLast(lines: seq<string>, k: Field, i: int) {
    && 0 <= i < |lines|
    && FieldOf(lines[i]) == Some(k)
    && forall j :: i < j < |lines| ==> FieldOf(lines[j]) != Some(k)
  }

  /** Some line fills key `k`. */
  predicate Mentions(lines: seq<string>, k: Field) {
    exists i :: 0 <= i < |lines| && FieldOf(lines[i]) == Some(k)
  }

  /** Lines that do not fill `k` leave `k` as it was. */
  lemma {:induction false} FoldKeepsUnmentioned(d: Decision, lines: seq<string>, decode: Decoder, k: Field)
    requires !Mentions(lines, k)
    ensures k in Fold(d, lines, decode) <==> k in d
    ensures k in d ==> Fold(d, lines, decode)[k] == d[k]
    decreases |lines|
  {
    if lines != [] {
      assert FieldOf(lines[0]) != Some(k);
      assert !Mentions(lines[1..], k) by {
        forall j | 0 <= j < |lines[1..]| ensures FieldOf(lines[1..][j]) != Some(k) {
          assert lines[1..][j] == lines[j + 1];
        }
      }
      FoldKeepsUnmentioned(Step(d, lines[0], decode), lines[1..], decode, k);
    }
  }

  /** When a prefix repeats, the last matching line wins. */
  lemma {:induction false} FoldLastWins(d: Decision, lines: seq<string>, decode: Decoder, k: Field, i: int)
    requires IsLast(lines, k, i)
    ensures k in Fold(d, lines, decode)
    ensures Fold(d, lines, decode)[k] == ValueOf(lines[i], k, decode)
    decreases |lines|
  {
    var d' := Step(d, lines[0], decode);
    if i == 0 {
      assert !Mentions(lines[1..], k) by {
        forall j | 0 <= j < |lines[1..]| ensures FieldOf(lines[1..][j]) != Some(k) {
          assert lines[1..][j] == lines[j + 1];
        }
      }
      FoldKeepsUnmentioned(d', lines[1..], decode, k);
    } else {
      assert IsLast(lines[1..], k, i - 1) by {
        forall j | i - 1 < j < |lines[1..]| ensures FieldOf(lines[1..][j]) != Some(k) {
          assert lines[1..][j] == lines[j + 1];
        }
      }
      FoldLastWins(d', lines[1..], decode, k, i - 1);
    }
  }

  /** A key is in the result iff it was there before or some line fills it. */
  lemma {:induction false} FoldKeys(d: Decision, lines: seq<string>, decode: Decoder, k: Field)
    ensures k in Fold(d, lines, decode) <==> k in d || Mentions(lines, k)
  {
    if Mentions(lines, k) {
      var i := LastMention(lines, k);
      FoldLastWins(d, lines, decode, k, i);
    } else {
      FoldKeepsUnmentioned(d, lines, decode, k);
    }
  }

  /** The index of the last line that fills `k`. */
  function LastMention(lines: seq<string>, k: Field): (i: int)
    requires Mentions(lines, k)
    ensures IsLast(lines, k, i)
    decreases |lines|
  {
    if FieldOf(lines[|lines| - 1]) == Some(k) then |lines| - 1
    else
      assert Mentions(lines[..|lines| - 1], k) by {
        var i :| 0 <= i < |lines| && FieldOf(lines[i]) == Some(k);
        assert lines[..|lines| - 1][i] == lines[i];
      }
      var i := LastMention(lines[..|lines| - 1], k);
      assert lines[..|lines| - 1][i] == lines[i];
      i
  }

  /** Running the loop over `a + b` is running it over `a`, then over `b`. */
  lemma {:induction false} FoldAppend(d: Decision, a: seq<string>, b: seq<string>, decode: Decoder)
    ensures Fold(d, a + b, decode) == Fold(Fold(d, a, decode), b, decode)
    decreases |a|
  {
    if a == [] {
      assert a + b == b;
    } else {
      assert (a + b)[0] == a[0] && (a + b)[1..] == a[1..] + b;
      FoldAppend(Step(d, a[0], decode), a[1..], b, decode);
    }
  }

  /** A line that starts with none of the four prefixes is ignored: taking
      it out of the text changes nothing. */
  lemma IgnoredLine(d: Decision, a: seq<string>, x: string, b: seq<string>, decode: Decoder)
    requires FieldOf(x) == None
    ensures Fold(d, a + [x] + b, decode) == Fold(d, a + b, decode)
  {
    FoldAppend(d, a + [x], b, decode);
    FoldAppend(d, a, [x], decode);
    FoldAppend(d, a, b, decode);
    assert Fold(Fold(d, a, decode), [x], decode) == Fold(d, a, decode);
  }

  /** Two lines that fill different keys give the same dictionary in
      either order. */
  lemma StepCommute(d: Decision, x: string, y: string, decode: Decoder)
    requires FieldOf(x) != FieldOf(y) || FieldOf(x) == None
    ensures Step(Step(d, x, decode), y, decode) == Step(Step(d, y, decode), x, decode)
  {
    if FieldOf(x).Some? && FieldOf(y).Some? {
      var kx, ky := FieldOf(x).value, FieldOf(y).value;
      var vx, vy := ValueOf(x, kx, decode), ValueOf(y, ky, decode);
      StepUpdates(d, x, kx, decode);
      StepUpdates(d[kx := vx], y, ky, decode);
      StepUpdates(d, y, ky, decode);
      StepUpdates(d[ky := vy], x, kx, decode);
      UpdatesCommute(d, kx, ky, vx, vy);
    }
  }

  lemma UpdatesCommute(d: Decision, kx: Field, ky: Field, vx: Value, vy: Value)
    requires kx != ky
    ensures d[kx := vx][ky := vy] == d[ky := vy][kx := vx]
  {
  }

  lemma StepUpdates(d: Decision, line: string, k: Field, decode: Decoder)
    requires FieldOf(line) == Some(k)
    ensures Step(d, line, decode) == d[k := ValueOf(line, k, decode)]
  {
  }

  /** Two adjacent lines that fill different keys can be swapped: the
      result does not depend on the order of the fields in the text. */
  lemma SwapDistinct(d: Decision, a: seq<string>, x: string, y: string, b: seq<string>, decode: Decoder)
    requires FieldOf(x) != FieldOf(y) || FieldOf(x) == None
    ensures Fold(d, a + [x, y] + b, decode) == Fold(d, a + [y, x] + b, decode)
  {
    var m := Fold(d, a, decode);
    calc {
      Fold(d, a + [x, y] + b, decode);
      == { FoldAppend(d, a + [x, y], b, decode); FoldAppend(d, a, [x, y], decode); }
      Fold(Fold(m, [x, y], decode), b, decode);
      == { FoldPair(m, x, y, decode); }
      Fold(Step(Step(m, x, decode), y, decode), b, decode);
      == { StepCommute(m, x, y, decode); }
      Fold(Step(Step(m, y, decode), x, decode), b, decode);
      == { FoldPair(m, y, x, decode); }
      Fold(Fold(m, [y, x], decode), b, decode);
      == { FoldAppend(d, a + [y, x], b, decode); FoldAppend(d, a, [y, x], decode); }
      Fold(d, a + [y, x] + b, decode);
    }
  }

  lemma FoldPair(d: Decision, x: string, y: string, decode: Decoder)
    ensures Fold(d, [x, y], decode) == Step(Step(d, x, decode), y, decode)
  {
    assert [x, y][1..] == [y] && [y][1..] == [];
    assert Fold(d, [x, y], decode) == Fold(Step(d, x, decode), [y], decode);
    assert Fold(Step(d, x, decode), [y], decode) == Fold(Step(Step(d, x, decode), y, decode), [], decode);
  }

  /** The dictionary holds a string under the three text keys and a JSON
      value under `action_args`. */
  ghost predicate WellTyped(d: Decision) {
    forall k :: k in d ==> (d[k].Parsed? <==> k == ActionArgs)
  }

  lemma {:induction false} FoldWellTyped(d: Decision, lines: seq<string>, decode: Decoder)
    requires WellTyped(d)
    ensures WellTyped(Fold(d, lines, decode))
    decreases |lines|
  {
    if lines != [] {
      FoldWellTyped(Step(d, lines[0], decode), lines[1..], decode);
    }
  }

  /** Over the lines of a text, a key is present iff some line starts with
      its prefix. */
  lemma KeysByPrefix(lines: seq<string>, decode: Decoder, k: Field)
    ensures k in Fold(map[], lines, decode)
            <==> exists i :: 0 <= i < |lines| && StartsWith(lines[i], PrefixOf(k))
  {
    forall i | 0 <= i < |lines|
      ensures FieldOf(lines[i]) == Some(k) <==> StartsWith(lines[i], PrefixOf(k))
    {
      FieldOfPrefix(lines[i], k);
    }
    FoldKeys(map[], lines, decode, k);
  }

  /** A key is present in the parse of `response` iff some line of the
      stripped text starts with its prefix. */
  lemma ParseKeys(response: string, decode: Decoder, k: Field)
    ensures k in Parse(response, decode)
            <==> exists i :: 0 <= i < |Lines(response)| && StartsWith(Lines(response)[i], PrefixOf(k))
  {
    KeysByPrefix(Lines(response), decode, k);
  }

  /** The value of a present key comes from the last line that starts with
      its prefix. */
  lemma ParseLastWins(response: string, decode: Decoder, k: Field, i: int)
    requires IsLast(Lines(response), k, i)
    ensures k in Parse(response, decode)
    ensures Parse(response, decode)[k] == ValueOf(Lines(response)[i], k, decode)
  {
    FoldLastWins(map[], Lines(response), decode, k, i);
  }

  /** A line that begins with whitespace is ignored, since the prefixes are
      tested on the untrimmed line. */
  lemma IndentedLineIgnored(line: string)
    requires |line| > 0 && IsSpace(line[0])
    ensures FieldOf(line) == None
  {
    assert line[0] != 'T' && line[0] != 'A' && line[0] != 'R';
  }

  /** The text handed to the JSON decoder keeps the prefix's colon: it
      always begins with ':'. */
  lemma ArgsTextBeginsWithColon(line: string)
    requires FieldOf(line) == Some(ActionArgs)
    ensures |Strip(line[SliceStart(ActionArgs)..])| > 0
    ensures Strip(line[SliceStart(ActionArgs)..])[0] == ':'
  {
    assert line[..12] == "Action Args:";
    assert line[11..][0] == ':';
    StripKeepsFirst(line[11..]);
  }

  /** With a decoder that follows the JSON rule, the `action_args` key, when
      present, always holds `{}`. */
  lemma {:induction false} FoldArgsEmpty(d: Decision, lines: seq<string>, decode: Decoder)
    requires RejectsNonValueStart(decode)
    requires ActionArgs in d ==> d[ActionArgs] == Parsed(EmptyObject)
    ensures var r := Fold(d, lines, decode);
            ActionArgs in r ==> r[ActionArgs] == Parsed(EmptyObject)
    decreases |lines|
  {
    if lines != [] {
      if FieldOf(lines[0]) == Some(ActionArgs) {
        ArgsTextBeginsWithColon(lines[0]);
        ColonIsRejected(decode, Strip(lines[0][11..]));
      }
      FoldArgsEmpty(Step(d, lines[0], decode), lines[1..], decode);
    }
  }

  lemma ArgsAlwaysEmpty(response: string, decode: Decoder)
    requires RejectsNonValueStart(decode)
    ensures var r := Parse(response, decode);
            ActionArgs in r ==> r[ActionArgs] == Parsed(EmptyObject)
  {
    FoldArgsEmpty(map[], Lines(response), decode);
  }

  /** `decision.get(k)` for one of the three text keys. */
  function TextOf(d: Decision, k: Field): Option<string> {
    if k in d && d[k].Text? then Some(d[k].text) else None
  }

  /** `decision.get("action_args", {})`. */
  function ArgsOf(d: Decision): Json {
    if ActionArgs in d && d[ActionArgs].Parsed? then d[ActionArgs].json else EmptyObject
  }
}
