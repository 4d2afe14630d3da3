/** The few operations on Python `str` values that the scripts rely on:
    `strip`, `split('\n')`, `'\n'.join`, the `in` substring test and a
    lower-cased suffix test. Strings are sequences of code points. */
module Text {
  import opened Counters

  /** Python's `str.isspace` for one code point. */
  predicate IsSpace(c: char) {
    var n := c as int;
    || (9 <= n <= 13) || (28 <= n <= 32) || n == 0x85 || n == 0xA0 || n == 0x1680
    || (0x2000 <= n <= 0x200A) || n == 0x2028 || n == 0x2029 || n == 0x202F
    || n == 0x205F || n == 0x3000
  }

  /** Every code point of `s` is white space (the empty string included). */
  predicate IsBlank(s: string) {
    forall i :: 0 <= i < |s| ==> IsSpace(s[i])
  }

  /** Neither end of `s` is white space. */
  predicate IsStripped(s: string) {
    s == [] || (!IsSpace(s[0]) && !IsSpace(s[|s| - 1]))
  }

  function TrimStart(s: string): (r: string)
    ensures |r| <= |s| && r == s[|s| - |r|..]
    ensures r == [] || !IsSpace(r[0])
    ensures IsBlank(s[..|s| - |r|])
  {
    if |s| > 0 && IsSpace(s[0]) then
      var r := TrimStart(s[1..]);
      assert s[1..][..|s[1..]| - |r|] == s[1..|s| - |r|];
      r
    else s
  }

  function TrimEnd(s: string): (r: string)
    ensures |r| <= |s| && r == s[..|r|]
    ensures r == [] || !IsSpace(r[|r| - 1])
    ensures IsBlank(s[|r|..])
  {
    if |s| > 0 && IsSpace(s[|s| - 1]) then
      var r := TrimEnd(s[..|s| - 1]);
      assert s[..|s| - 1][|r|..] + [s[|s| - 1]] == s[|r|..];
      r
    else s
  }

  /** Python's `s.strip()`: the longest middle slice of `s` with no white
      space at either end; what it drops is white space. */
  function Strip(s: string): (r: string)
    ensures IsStripped(r)
    ensures exists i, j :: 0 <= i <= j <= |s| && r == s[i..j] && IsBlank(s[..i]) && IsBlank(s[j..])
  {
    var a := TrimStart(s);
    var r := TrimEnd(a);
    var i := |s| - |a|;
    assert r == s[i..i + |r|];
    assert s[i + |r|..] == a[|r|..];
    r
  }

  /** A blank line strips to the empty string, and only a blank line does. */
  lemma StripEmptyIffBlank(s: string)
    ensures Strip(s) == [] <==> IsBlank(s)
  {
    if IsBlank(s) {
      BlankStripsEmpty(s);
    } else {
      NonBlankStripsNonEmpty(s);
    }
  }

  lemma BlankStripsEmpty(s: string)
    requires IsBlank(s)
    ensures Strip(s) == []
  {
  }

  lemma NonBlankStripsNonEmpty(s: string)
    requires !IsBlank(s)
    ensures Strip(s) != []
  {
    var a := TrimStart(s);
    var n := |s| - |a|;
    assert Strip(s) == TrimEnd(a);
    assert s == s[..n] + a;
    BlankConcat(s[..n], a);
    TrimEndEmptyOnlyIfBlank(a);
  }

  /** Trimming the end leaves nothing only of a blank string. */
  lemma TrimEndEmptyOnlyIfBlank(s: string)
    ensures TrimEnd(s) == [] ==> IsBlank(s)
  {
    assert s[0..] == s;
  }

  /** Two blank strings make a blank string. */
  lemma BlankConcat(x: string, y: string)
    ensures IsBlank(x) && IsBlank(y) ==> IsBlank(x + y)
  {
    if IsBlank(x) && IsBlank(y) {
      forall k | 0 <= k < |x + y| ensures IsSpace((x + y)[k]) {
        if k >= |x| { assert (x + y)[k] == y[k - |x|]; }
      }
    }
  }

  /** A string with no white space at either end is its own strip. */
  lemma StripStripped(s: string)
    requires IsStripped(s)
    ensures Strip(s) == s
  {
  }

  /** Python's `s.split(sep)` for a one-character separator: the pieces
      between separators, always at least one. */
  function Split(s: string, sep: char): (parts: seq<string>)
    ensures |parts| >= 1
    ensures forall k :: 0 <= k < |parts| ==> sep !in parts[k]
    decreases |s|
  {
    if sep in s then
      var i := FirstIndex(s, sep);
      [s[..i]] + Split(s[i + 1..], sep)
    else [s]
  }

  /** Python's `sep.join(parts)`. */
  function Join(parts: seq<string>, sep: char): string {
    if |parts| == 0 then []
    else if |parts| == 1 then parts[0]
    else parts[0] + [sep] + Join(parts[1..], sep)
  }

  /** Splitting and re-joining gives the original text back. */
  lemma {:induction false} JoinSplit(s: string, sep: char)
    ensures Join(Split(s, sep), sep) == s
    decreases |s|
  {
    if sep in s {
      var i := FirstIndex(s, sep);
      var rest := Split(s[i + 1..], sep);
      JoinSplit(s[i + 1..], sep);
      assert Split(s, sep) == [s[..i]] + rest;
      assert ([s[..i]] + rest)[1..] == rest;
      assert Join(Split(s, sep), sep) == s[..i] + [sep] + Join(rest, sep);
      assert s == s[..i] + [sep] + s[i + 1..];
    }
  }

  /** Joining pieces that hold no separator and splitting again gives the
      same pieces back. */
  lemma {:induction false} SplitJoin(parts: seq<string>, sep: char)
    requires |parts| >= 1
    requires forall k :: 0 <= k < |parts| ==> sep !in parts[k]
    ensures Split(Join(parts, sep), sep) == parts
  {
    if |parts| > 1 {
      var s, tail := Join(parts, sep), Join(parts[1..], sep);
      assert Split(s, sep) == [parts[0]] + Split(tail, sep) by {
        assert s == parts[0] + [sep] + tail;
        FirstIndexAfter(parts[0], sep, tail);
        assert s[..|parts[0]|] == parts[0];
        assert s[|parts[0]| + 1..] == tail;
      }
      SplitJoin(parts[1..], sep);
      assert parts == [parts[0]] + parts[1..];
    }
  }

  /** Python's `sub in s` on two strings. */
  predicate Contains(s: string, sub: string) {
    |sub| <= |s| && (s[..|sub|] == sub || Contains(s[1..], sub))
  }

  /** ASCII lower-casing of one code point. */
  function LowerAscii(c: char): char {
    if 'A' <= c <= 'Z' then (c as int + 32) as char else c
  }

  /** `path.lower().endswith('.csv')`. Only the last four code points matter,
      and the only ones that lower-case into ".csv" are ASCII. */
  predicate IsCsvPath(path: string) {
    |path| >= 4
    && path[|path| - 4] == '.'
    && LowerAscii(path[|path| - 3]) == 'c'
    && LowerAscii(path[|path| - 2]) == 's'
    && LowerAscii(path[|path| - 1]) == 'v'
  }
}
