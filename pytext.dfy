/**
 * The handful of Python `str` operations the agent's parser and prompt
 * rendering rely on: `strip()` with no argument, `split(sep)` and
 * `sep.join(parts)` for a one-character separator, and `startswith`.
 */
module PyText {

  /** Python's `str.isspace()` for one character: the characters `strip()`
      removes when it is called without an argument. */
  predicate IsSpace(c: char) {
    || c == ' '
    || ('\t' <= c <= '\r')                 // tab, line feed, vertical tab, form feed, carriage return
    || ('\U{1C}' <= c <= '\U{1F}')         // the four information separators
    || c == '\U{85}' || c == '\U{A0}' || c == '\U{1680}'
    || ('\U{2000}' <= c <= '\U{200A}')
    || c == '\U{2028}' || c == '\U{2029}' || c == '\U{202F}' || c == '\U{205F}' || c == '\U{3000}'
  }

  predicate AllSpace(s: string) {
    forall i :: 0 <= i < |s| ==> IsSpace(s[i])
  }

  /** `s.strip()`: `s` without its leading and trailing whitespace; the
      result neither begins nor ends with whitespace (`StripIsSlice` says
      what it keeps). */
  function Strip(s: string): (r: string)
    ensures |r| <= |s|
    ensures r == [] || (!IsSpace(r[0]) && !IsSpace(r[|r| - 1]))
    decreases |s|
  {
    if |s| > 0 && IsSpace(s[0]) then Strip(s[1..])
    else if |s| > 0 && IsSpace(s[|s| - 1]) then Strip(s[..|s| - 1])
    else s
  }

  /** What `strip()` keeps is a slice of `s`, and everything it cuts away
      is whitespace. */
  lemma {:induction false} StripIsSlice(s: string) returns (a: nat)
    ensures a + |Strip(s)| <= |s| && Strip(s) == s[a..a + |Strip(s)|]
    ensures AllSpace(s[..a]) && AllSpace(s[a + |Strip(s)|..])
    decreases |s|
  {
    if |s| > 0 && IsSpace(s[0]) {
      var b := StripIsSlice(s[1..]);
      a := SliceAfterFront(s, b);
    } else if |s| > 0 && IsSpace(s[|s| - 1]) {
      a := StripIsSlice(s[..|s| - 1]);
      SliceAfterBack(s, a);
    } else {
      a := 0;
      assert s[..0] == [] && s[|s|..] == [];
    }
  }

  lemma SliceAfterFront(s: string, b: nat) returns (a: nat)
    requires |s| > 0 && IsSpace(s[0])
    requires b + |Strip(s[1..])| <= |s| - 1 && Strip(s[1..]) == s[1..][b..b + |Strip(s[1..])|]
    requires AllSpace(s[1..][..b]) && AllSpace(s[1..][b + |Strip(s[1..])|..])
    ensures a + |Strip(s)| <= |s| && Strip(s) == s[a..a + |Strip(s)|]
    ensures AllSpace(s[..a]) && AllSpace(s[a + |Strip(s)|..])
  {
    var r := Strip(s[1..]);
    assert Strip(s) == r;
    a := b + 1;
    assert r == s[a..a + |r|];
    assert s[..a] == [s[0]] + s[1..][..b];
    assert s[a + |r|..] == s[1..][b + |r|..];
  }

  lemma SliceAfterBack(s: string, a: nat)
    requires |s| > 0 && !IsSpace(s[0]) && IsSpace(s[|s| - 1])
    requires a + |Strip(s[..|s| - 1])| <= |s| - 1 && Strip(s[..|s| - 1]) == s[..|s| - 1][a..a + |Strip(s[..|s| - 1])|]
    requires AllSpace(s[..|s| - 1][..a]) && AllSpace(s[..|s| - 1][a + |Strip(s[..|s| - 1])|..])
    ensures a + |Strip(s)| <= |s| && Strip(s) == s[a..a + |Strip(s)|]
    ensures AllSpace(s[..a]) && AllSpace(s[a + |Strip(s)|..])
  {
    var r := Strip(s[..|s| - 1]);
    assert Strip(s) == r;
    assert r == s[a..a + |r|];
    assert s[..a] == s[..|s| - 1][..a];
    assert s[a + |r|..] == s[..|s| - 1][a + |r|..] + [s[|s| - 1]];
  }

  /** A text that does not begin with whitespace keeps its first character
      through `strip()`. */
  lemma {:induction false} StripKeepsFirst(s: string)
    requires |s| > 0 && !IsSpace(s[0])
    ensures |Strip(s)| > 0 && Strip(s)[0] == s[0]
    decreases |s|
  {
    if IsSpace(s[|s| - 1]) {
      StripKeepsFirst(s[..|s| - 1]);
    }
  }

  /** `strip()` is idempotent. */
  lemma StripIdempotent(s: string)
    ensures Strip(Strip(s)) == Strip(s)
  {
    var r := Strip(s);
    if |r| > 0 {
      assert !IsSpace(r[0]) && !IsSpace(r[|r| - 1]);
    }
  }

  /** `sep.join(parts)`. */
  function Join(parts: seq<string>, sep: char): string {
    if |parts| == 0 then ""
    else if |parts| == 1 then parts[0]
    else parts[0] + [sep] + Join(parts[1..], sep)
  }

  /** `s.split(sep)` for a one-character separator: the pieces between
      occurrences of `sep`, so there is always at least one piece (the
      empty text splits into one empty piece), no piece contains `sep`, and
      joining the pieces with `sep` gives back `s`. */
  function Split(s: string, sep: char): (parts: seq<string>)
    ensures |parts| >= 1
    ensures forall i :: 0 <= i < |parts| ==> sep !in parts[i]
    ensures Join(parts, sep) == s
    decreases |s|
  {
    if |s| == 0 then [""]
    else
      var rest := Split(s[1..], sep);
      if s[0] == sep then
        assert s == [sep] + s[1..];
        [""] + rest
      else
        var parts := [[s[0]] + rest[0]] + rest[1..];
        assert parts[1..] == rest[1..];
        assert s == [s[0]] + s[1..];
        parts
  }

  /** Splitting a piece that does not contain the separator, followed by
      the separator, peels that piece off. */
  lemma {:induction false} SplitPeel(a: string, sep: char, b: string)
    requires sep !in a
    ensures Split(a + [sep] + b, sep) == [a] + Split(b, sep)
    decreases |a|
  {
    if |a| == 0 {
      assert a + [sep] + b == [sep] + b;
      assert ([sep] + b)[1..] == b;
    } else {
      assert (a + [sep] + b)[1..] == a[1..] + [sep] + b;
      SplitPeel(a[1..], sep, b);
      assert a == [a[0]] + a[1..];
    }
  }

  /** A text without the separator splits into itself alone. */
  lemma {:induction false} SplitWhole(a: string, sep: char)
    requires sep !in a
    ensures Split(a, sep) == [a]
    decreases |a|
  {
    if |a| > 0 {
      SplitWhole(a[1..], sep);
      assert a == [a[0]] + a[1..];
    }
  }

  /** `split` undoes `join` when no piece contains the separator. */
  lemma {:induction false} SplitJoin(parts: seq<string>, sep: char)
    requires |parts| >= 1
    requires forall i :: 0 <= i < |parts| ==> sep !in parts[i]
    ensures Split(Join(parts, sep), sep) == parts
    decreases |parts|
  {
    if |parts| == 1 {
      SplitWhole(parts[0], sep);
    } else {
      SplitJoin(parts[1..], sep);
      SplitPeel(parts[0], sep, Join(parts[1..], sep));
      assert parts == [parts[0]] + parts[1..];
    }
  }

  /** `s.startswith(prefix)`. */
  predicate StartsWith(s: string, prefix: string) {
    |prefix| <= |s| && s[..|prefix|] == prefix
  }
}
