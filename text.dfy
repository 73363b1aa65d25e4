/** The pieces of Python string handling that the path resolver relies on:
    `str.replace`, `str.split` with an explicit separator, `str.join`, and the
    decimal rendering of a non-negative integer. */
module Text {

  /** `s.replace(pat, rep)`: every non-overlapping occurrence of `pat`,
      scanning left to right, is replaced by `rep`. */
  function Replace(s: string, pat: string, rep: string): (r: string)
    requires |pat| > 0
    ensures |rep| <= |pat| ==> |r| <= |s|
    ensures |rep| == |pat| ==> |r| == |s|
    decreases |s|
  {
    if |s| < |pat| then s
    else if s[..|pat|] == pat then rep + Replace(s[|pat|..], pat, rep)
    else [s[0]] + Replace(s[1..], pat, rep)
  }

  /** Reference definition: every `c` of `s` becomes `d`, position by position. */
  function MapChar(s: string, c: char, d: char): (r: string)
    ensures |r| == |s|
  {
    seq(|s|, i requires 0 <= i < |s| => if s[i] == c then d else s[i])
  }

  /** `sep.join(parts)`: the first part leads the result. */
  function Join(parts: seq<string>, sep: string): (r: string)
    ensures |parts| > 0 ==> parts[0] <= r
  {
    if |parts| == 0 then ""
    else if |parts| == 1 then parts[0]
    else parts[0] + sep + Join(parts[1..], sep)
  }

  /** `s.split(c)`: the maximal runs between separators, empty runs included,
      so there is always at least one part. */
  function Split(s: string, c: char): (parts: seq<string>)
    ensures |parts| >= 1
    ensures forall k :: 0 <= k < |parts| ==> c !in parts[k]
  {
    if |s| == 0 then [""]
    else
      var rest := Split(s[1..], c);
      if s[0] == c then [""] + rest
      else [[s[0]] + rest[0]] + rest[1..]
  }

  /** A character absent from the input and from the replacement stays absent. */
  lemma {:induction false} ReplaceKeepsAbsent(s: string, pat: string, rep: string, c: char)
    requires |pat| > 0
    requires c !in s && c !in rep
    ensures c !in Replace(s, pat, rep)
    decreases |s|
  {
    if |s| < |pat| {
    } else if s[..|pat|] == pat {
      ReplaceKeepsAbsent(s[|pat|..], pat, rep, c);
    } else {
      ReplaceKeepsAbsent(s[1..], pat, rep, c);
    }
  }

  /** Text that does not contain the first character of the pattern is left as it is. */
  lemma {:induction false} ReplaceAbsentPattern(s: string, pat: string, rep: string)
    requires |pat| > 0 && pat[0] !in s
    ensures Replace(s, pat, rep) == s
    decreases |s|
  {
    if |s| >= |pat| {
      assert s[..|pat|][0] == s[0];
      ReplaceAbsentPattern(s[1..], pat, rep);
    }
  }

  /** Replacing a single character by text that does not contain it removes
      every occurrence of it. */
  lemma {:induction false} ReplaceCharRemoves(s: string, c: char, rep: string)
    requires c !in rep
    ensures c !in Replace(s, [c], rep)
    decreases |s|
  {
    if |s| >= 1 {
      ReplaceCharRemoves(s[1..], c, rep);
    }
  }

  /** Replacing one character by one character is the positionwise map. */
  lemma {:induction false} ReplaceCharIsMap(s: string, c: char, d: char)
    ensures Replace(s, [c], [d]) == MapChar(s, c, d)
    decreases |s|
  {
    if |s| >= 1 {
      ReplaceCharIsMap(s[1..], c, d);
      assert s[..1] == [s[0]];
      assert MapChar(s, c, d) == MapChar([s[0]], c, d) + MapChar(s[1..], c, d);
    }
  }

  /** Joining with `[sep]` puts the first character of a part in front. */
  lemma JoinConsChar(x: char, parts: seq<string>, sep: string)
    requires |parts| >= 1
    ensures Join([[x] + parts[0]] + parts[1..], sep) == [x] + Join(parts, sep)
  {
    var ps := [[x] + parts[0]] + parts[1..];
    assert ps[0] == [x] + parts[0];
    if |parts| > 1 {
      assert ps[1..] == parts[1..];
      assert Join(ps, sep) == ([x] + parts[0]) + sep + Join(parts[1..], sep);
    }
  }

  /** Splitting on `c` and joining with `d` maps every `c` to `d`. */
  lemma {:induction false} JoinSplitIsMap(s: string, c: char, d: char)
    ensures Join(Split(s, c), [d]) == MapChar(s, c, d)
    decreases |s|
  {
    if |s| >= 1 {
      var rest := Split(s[1..], c);
      JoinSplitIsMap(s[1..], c, d);
      assert MapChar(s, c, d) == MapChar([s[0]], c, d) + MapChar(s[1..], c, d);
      if s[0] == c {
        assert ([""] + rest)[1..] == rest;
      } else {
        JoinConsChar(s[0], rest, [d]);
      }
    }
  }

  /** Round trip: joining the parts of a split with the same separator gives
      back the input. */
  lemma SplitJoinRoundTrip(s: string, c: char)
    ensures Join(Split(s, c), [c]) == s
  {
    JoinSplitIsMap(s, c, c);
    assert MapChar(s, c, c) == s;
  }

  /** Mapping a character onto another removes it. */
  lemma MapCharRemoves(s: string, c: char, d: char)
    requires c != d
    ensures c !in MapChar(s, c, d)
  {
    var r := MapChar(s, c, d);
    forall i | 0 <= i < |r| ensures r[i] != c {
    }
  }

  /** Mapping distributes over concatenation. */
  lemma MapCharConcat(a: string, b: string, c: char, d: char)
    ensures MapChar(a + b, c, d) == MapChar(a, c, d) + MapChar(b, c, d)
  {
  }

  /** The character for the decimal digit `d`. */
  function Digit(d: nat): (ch: char)
    requires d < 10
    ensures '0' <= ch <= '9'
  {
    ('0' as int + d) as char
  }

  /** `str(n)` for a non-negative integer. */
  function NatToString(n: nat): (r: string)
    ensures |r| >= 1
    ensures forall i :: 0 <= i < |r| ==> '0' <= r[i] <= '9'
    ensures r[0] == '0' ==> n == 0
    decreases n
  {
    if n < 10 then [Digit(n)] else NatToString(n / 10) + [Digit(n % 10)]
  }

  /** The value of a string of decimal digits, as `int(s)` reads it. */
  function DecimalValue(s: string): nat
    requires forall i :: 0 <= i < |s| ==> '0' <= s[i] <= '9'
  {
    if |s| == 0 then 0
    else DecimalValue(s[..|s| - 1]) * 10 + (s[|s| - 1] as int - '0' as int)
  }

  /** Round trip: reading back the rendering gives the number. */
  lemma {:induction false} DecimalRoundTrip(n: nat)
    ensures DecimalValue(NatToString(n)) == n
    decreases n
  {
    var r := NatToString(n);
    if n >= 10 {
      DecimalRoundTrip(n / 10);
      assert r[..|r| - 1] == NatToString(n / 10);
    }
  }
}
