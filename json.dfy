/**
 * JSON values as `json.loads` produces them, and the one rule of the JSON
 * grammar the agent's parser depends on.
 *
 * `json.loads` itself is library code outside this model: the parser takes
 * the decoder as a parameter (a total function that yields `None` where
 * `json.loads` raises `JSONDecodeError`). What the model assumes of it is
 * stated once, as `RejectsNonValueStart`.
 */
module Json {

  import opened Wrappers

  datatype Json =
    | JNull
    | JBool(b: bool)
    | JNumber(literal: string)
    | JString(s: string)
    | JArray(items: seq<Json>)
    | JObject(members: map<string, Json>)

  /** The empty object `{}`. */
  const EmptyObject: Json := JObject(map[])

  /** A decoder: `Some(value)` for a document it accepts, `None` where
      `json.loads` would raise `JSONDecodeError`. */
  type Decoder = string -> Option<Json>

  /** The whitespace `json.loads` skips before a document. */
  predicate IsJsonSpace(c: char) {
    c == ' ' || c == '\t' || c == '\n' || c == '\r'
  }

  /** `s` without the JSON whitespace in front of it. */
  function SkipJsonSpace(s: string): (r: string)
    ensures |r| <= |s| && r == s[|s| - |r|..]
    ensures r == [] || !IsJsonSpace(r[0])
    ensures forall i :: 0 <= i < |s| - |r| ==> IsJsonSpace(s[i])
    decreases |s|
  {
    if |s| > 0 && IsJsonSpace(s[0]) then SkipJsonSpace(s[1..]) else s
  }

  /** The characters a JSON value can begin with as `json.loads` scans it:
      an object, an array, a string, `null`, `true`, `false`, `NaN`,
      `Infinity`, a minus sign or a digit. */
  predicate CanStartValue(c: char) {
    c == '{' || c == '[' || c == '"' || c == 'n' || c == 't' || c == 'f'
    || c == 'N' || c == 'I' || c == '-' || ('0' <= c <= '9')
  }

  /** After the leading whitespace, the text begins a value. */
  predicate BeginsWithValue(s: string) {
    var t := SkipJsonSpace(s);
    |t| > 0 && CanStartValue(t[0])
  }

  /** The rule of `json.loads` the model relies on: a document whose first
      non-whitespace character cannot begin a value ("Expecting value") is
      rejected. */
  ghost predicate RejectsNonValueStart(decode: Decoder) {
    forall s :: !BeginsWithValue(s) ==> decode(s) == None
  }

  /** A decoder that obeys the rule rejects every text that begins with a
      colon. */
  lemma ColonIsRejected(decode: Decoder, s: string)
    requires RejectsNonValueStart(decode)
    requires |s| > 0 && s[0] == ':'
    ensures decode(s) == None
  {
    assert SkipJsonSpace(s) == s;
  }
}
