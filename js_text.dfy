/**
 * String operations of JavaScript and Java that the modelled code relies on,
 * on `string` = `seq<char>` (one char per code point).
 */
module JsText {
  import opened Wrappers

  /** The characters JavaScript's `\s` and `String.prototype.trim` treat as white space. */
  predicate IsJsWhitespace(c: char) {
    || c == '\t' || c == '\n' || c == '\U{000B}' || c == '\U{000C}' || c == '\r' || c == ' '
    || c == '\U{00A0}' || c == '\U{1680}' || ('\U{2000}' <= c <= '\U{200A}')
    || c == '\U{2028}' || c == '\U{2029}' || c == '\U{202F}' || c == '\U{205F}'
    || c == '\U{3000}' || c == '\U{FEFF}'
  }

  /** Every character of `s` is JavaScript white space. */
  predicate IsBlank(s: string) {
    forall i :: 0 <= i < |s| ==> IsJsWhitespace(s[i])
  }

  /** `s.trimStart()`: drops the leading white space. */
  function TrimStart(s: string): string
    decreases |s|
  {
    if |s| > 0 && IsJsWhitespace(s[0]) then TrimStart(s[1..]) else s
  }

  /** `s.trimEnd()`: drops the trailing white space. */
  function TrimEnd(s: string): string
    decreases |s|
  {
    if |s| > 0 && IsJsWhitespace(s[|s| - 1]) then TrimEnd(s[..|s| - 1]) else s
  }

  /** `trimStart` drops a blank prefix and keeps the rest, which starts with a non-space. */
  lemma {:induction false} TrimStartShape(s: string)
    ensures var r := TrimStart(s);
            && |r| <= |s| && r == s[|s| - |r|..]
            && (r == [] || !IsJsWhitespace(r[0]))
            && IsBlank(s[..|s| - |r|])
    decreases |s|
  {
    if |s| > 0 && IsJsWhitespace(s[0]) {
      TrimStartShape(s[1..]);
      var r := TrimStart(s[1..]);
      assert s[..|s| - |r|] == [s[0]] + s[1..][..|s| - 1 - |r|];
    }
  }

  /** `trimEnd` drops a blank suffix and keeps the rest, which ends with a non-space. */
  lemma {:induction false} TrimEndShape(s: string)
    ensures var r := TrimEnd(s);
            && |r| <= |s| && r == s[..|r|]
            && (r == [] || !IsJsWhitespace(r[|r| - 1]))
            && IsBlank(s[|r|..])
    decreases |s|
  {
    if |s| > 0 && IsJsWhitespace(s[|s| - 1]) {
      TrimEndShape(s[..|s| - 1]);
      var r := TrimEnd(s[..|s| - 1]);
      assert s[|r|..] == s[..|s| - 1][|r|..] + [s[|s| - 1]];
    }
  }

  /** `s.trim()` in JavaScript. */
  function JsTrim(s: string): string {
    TrimEnd(TrimStart(s))
  }

  /** `!s.trim()`: a string is falsy after trimming exactly when it is all white space. */
  lemma TrimEmptyIffBlank(s: string)
    ensures JsTrim(s) == "" <==> IsBlank(s)
  {
    var a := TrimStart(s);
    TrimStartShape(s);
    TrimEndShape(a);
    if JsTrim(s) == "" {
      assert a == [];
      assert s[..|s|] == s;
    }
  }

  /**
   * Java's `String.trim()`: drops the characters up to U+0020 from both ends;
   * a string already without them at either end is returned as it is.
   */
  function JavaTrim(s: string): (r: string)
    ensures |r| <= |s|
    ensures r == [] || (r[0] > ' ' && r[|r| - 1] > ' ')
    ensures (s == [] || (s[0] > ' ' && s[|s| - 1] > ' ')) ==> r == s
  {
    if |s| > 0 && s[0] <= ' ' then JavaTrim(s[1..])
    else if |s| > 0 && s[|s| - 1] <= ' ' then JavaTrim(s[..|s| - 1])
    else s
  }

  /** `r` is `s[i..j]`, and every character of `s` outside `[i, j)` is at most U+0020. */
  predicate SliceWithin(s: string, i: int, j: int, r: string) {
    && 0 <= i <= j <= |s| && r == s[i..j]
    && (forall k :: 0 <= k < i ==> s[k] <= ' ')
    && (forall k :: j <= k < |s| ==> s[k] <= ' ')
  }

  /** What `trim` keeps is one slice of the input, and everything around it is at most U+0020. */
  lemma {:induction false} JavaTrimSlice(s: string)
    ensures exists i, j :: SliceWithin(s, i, j, JavaTrim(s))
    decreases |s|
  {
    if |s| > 0 && s[0] <= ' ' {
      JavaTrimSlice(s[1..]);
      var i, j :| SliceWithin(s[1..], i, j, JavaTrim(s[1..]));
      SliceWithinTail(s, i, j, JavaTrim(s));
    } else if |s| > 0 && s[|s| - 1] <= ' ' {
      JavaTrimSlice(s[..|s| - 1]);
      var i, j :| SliceWithin(s[..|s| - 1], i, j, JavaTrim(s[..|s| - 1]));
      SliceWithinInit(s, i, j, JavaTrim(s));
    } else {
      assert SliceWithin(s, 0, |s|, JavaTrim(s));
    }
  }

  /** A slice of the tail, after a dropped leading character at most U+0020, is a slice of the whole. */
  lemma SliceWithinTail(s: string, i: int, j: int, r: string)
    requires |s| > 0 && s[0] <= ' ' && SliceWithin(s[1..], i, j, r)
    ensures SliceWithin(s, i + 1, j + 1, r)
  {
    var tail := s[1..];
    assert tail[i..j] == s[i + 1..j + 1];
    forall k | 0 <= k < i + 1 ensures s[k] <= ' ' {
      if k > 0 { assert s[k] == tail[k - 1]; }
    }
    forall k | j + 1 <= k < |s| ensures s[k] <= ' ' {
      assert s[k] == tail[k - 1];
    }
  }

  /** A slice of the prefix, before a dropped last character at most U+0020, is a slice of the whole. */
  lemma SliceWithinInit(s: string, i: int, j: int, r: string)
    requires |s| > 0 && s[|s| - 1] <= ' ' && SliceWithin(s[..|s| - 1], i, j, r)
    ensures SliceWithin(s, i, j, r)
  {
    var init := s[..|s| - 1];
    assert init[i..j] == s[i..j];
    forall k | 0 <= k < i ensures s[k] <= ' ' {
      assert s[k] == init[k];
    }
    forall k | j <= k < |s| ensures s[k] <= ' ' {
      if k < |init| { assert s[k] == init[k]; }
    }
  }

  /** Upper-cases an ASCII letter and leaves every other character alone. */
  function UpperChar(c: char): (u: char)
    ensures 'a' <= c <= 'z' ==> u as int == c as int - 32
    ensures !('a' <= c <= 'z') ==> u == c
  {
    if 'a' <= c <= 'z' then (c as int - 32) as char else c
  }

  /** Upper-cases the ASCII letters and leaves every other character alone. */
  function UpperAscii(s: string): (r: string)
    ensures |r| == |s|
    ensures forall i :: 0 <= i < |s| ==> r[i] == UpperChar(s[i])
  {
    seq(|s|, i requires 0 <= i < |s| => UpperChar(s[i]))
  }

  /** `s.toUpperCase().equals(w)`, compared character by character. */
  predicate UpperEquals(s: string, w: string)
    decreases |s|
  {
    if |s| == 0 then |w| == 0
    else |w| > 0 && UpperChar(s[0]) == w[0] && UpperEquals(s[1..], w[1..])
  }

  lemma {:induction false} UpperEqualsMeans(s: string, w: string)
    ensures UpperEquals(s, w) <==> UpperAscii(s) == w
    decreases |s|
  {
    if |s| > 0 && |w| > 0 {
      UpperEqualsMeans(s[1..], w[1..]);
      assert UpperAscii(s) == [UpperChar(s[0])] + UpperAscii(s[1..]);
      assert w == [w[0]] + w[1..];
    }
  }

  predicate StartsWith(s: string, p: string) {
    |p| <= |s| && s[..|p|] == p
  }

  predicate OccursAt(s: string, p: string, i: int) {
    0 <= i && i + |p| <= |s| && s[i..i + |p|] == p
  }

  /** `s.indexOf(p)`: the first position where `p` occurs, if any. */
  function IndexOf(s: string, p: string, from: nat := 0): (r: Option<nat>)
    requires from <= |s|
    decreases |s| - from
    ensures r.Some? ==> from <= r.value && OccursAt(s, p, r.value)
    ensures r.Some? ==> forall j :: from <= j < r.value ==> !OccursAt(s, p, j)
    ensures r.None? ==> forall j :: from <= j <= |s| ==> !OccursAt(s, p, j)
  {
    if OccursAt(s, p, from) then Some(from)
    else if from == |s| then None
    else IndexOf(s, p, from + 1)
  }

  /** `s.lastIndexOf(c)` for a single character. */
  function LastIndexOf(s: string, c: char): (r: Option<nat>)
    ensures r.Some? ==> r.value < |s| && s[r.value] == c && c !in s[r.value + 1..]
    ensures r.None? ==> c !in s
  {
    if |s| == 0 then None
    else if s[|s| - 1] == c then Some(|s| - 1)
    else LastIndexOf(s[..|s| - 1], c)
  }

  /** `s.replace(a, b)` in Java for one-character strings: every `a` becomes `b`. */
  function ReplaceChar(s: string, a: char, b: char): (r: string)
    ensures |r| == |s|
    ensures forall i :: 0 <= i < |s| ==> r[i] == if s[i] == a then b else s[i]
  {
    seq(|s|, i requires 0 <= i < |s| => if s[i] == a then b else s[i])
  }

  /** `s.replaceFirst("^/+", "")` in Java: drops the run of leading slashes. */
  function StripLeadingSlashes(s: string): (r: string)
    ensures |r| <= |s| && r == s[|s| - |r|..]
    ensures r == [] || r[0] != '/'
    ensures forall i :: 0 <= i < |s| - |r| ==> s[i] == '/'
  {
    if |s| > 0 && s[0] == '/' then StripLeadingSlashes(s[1..]) else s
  }

  function DigitChar(d: nat): (c: char)
    requires d < 10
    ensures '0' <= c <= '9' && c as int - '0' as int == d
  {
    ('0' as int + d) as char
  }

  /** The decimal digits of `n`, as `String(n)` writes them. */
  function NatToString(n: nat): (r: string)
    ensures |r| >= 1
    ensures forall i :: 0 <= i < |r| ==> '0' <= r[i] <= '9'
  {
    if n < 10 then [DigitChar(n)] else NatToString(n / 10) + [DigitChar(n % 10)]
  }

  /** `String(i)` for an integer. */
  function IntToString(i: int): string {
    if i < 0 then "-" + NatToString(-i) else NatToString(i)
  }

  /** `s.padStart(2, '0')`. */
  function PadStart2(s: string): (r: string)
    ensures |s| >= 2 ==> r == s
    ensures |s| < 2 ==> |r| == 2 && r[2 - |s|..] == s
  {
    if |s| >= 2 then s else if |s| == 1 then "0" + s else "00"
  }
}
