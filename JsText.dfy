// The parts of JavaScript's string semantics the task logic relies on:
// `trim`, `toLowerCase` (ASCII letters only), `includes`, and `Number` on a digit string.

module JsText {

  /** ECMAScript WhiteSpace and LineTerminator code points: what `String.prototype.trim` strips. */
  predicate IsWhiteSpace(c: char)
  {
    c == '\t' || c == '\n' || c == '\U{000B}' || c == '\U{000C}' || c == '\r' || c == ' ' ||
    c == '\U{00A0}' || c == '\U{1680}' || ('\U{2000}' <= c <= '\U{200A}') ||
    c == '\U{2028}' || c == '\U{2029}' || c == '\U{202F}' || c == '\U{205F}' || c == '\U{3000}' ||
    c == '\U{FEFF}'
  }

  /** Every character is white space (this includes the empty string). */
  predicate IsBlank(s: string)
  {
    forall i :: 0 <= i < |s| ==> IsWhiteSpace(s[i])
  }

  /** `s` without its leading white space: a suffix of `s`. */
  function TrimStart(s: string): (r: string)
    ensures |r| <= |s| && r == s[|s| - |r|..]
  {
    if s != [] && IsWhiteSpace(s[0]) then TrimStart(s[1..]) else s
  }

  /** `s` without its trailing white space: a prefix of `s`. */
  function TrimEnd(s: string): (r: string)
    ensures |r| <= |s| && r == s[..|r|]
  {
    if s != [] && IsWhiteSpace(s[|s| - 1]) then TrimEnd(s[..|s| - 1]) else s
  }

  /** `TrimStart` cuts only white space. */
  lemma {:induction false} TrimStartCutsBlank(s: string)
    ensures IsBlank(s[..|s| - |TrimStart(s)|])
  {
    if s != [] && IsWhiteSpace(s[0]) {
      TrimStartCutsBlank(s[1..]);
      var r := TrimStart(s);
      forall k | 0 <= k < |s| - |r| ensures IsWhiteSpace(s[k]) {
        if k > 0 {
          assert s[k] == s[1..][..|s| - 1 - |r|][k - 1];
        }
      }
    }
  }

  /** `TrimStart` cuts all leading white space: what it keeps starts with a non-space. */
  lemma {:induction false} TrimStartFirst(s: string)
    ensures TrimStart(s) == [] || !IsWhiteSpace(TrimStart(s)[0])
  {
    if s != [] && IsWhiteSpace(s[0]) {
      TrimStartFirst(s[1..]);
    }
  }

  /** `TrimEnd` cuts only white space. */
  lemma {:induction false} TrimEndCutsBlank(s: string)
    ensures IsBlank(s[|TrimEnd(s)|..])
  {
    if s != [] && IsWhiteSpace(s[|s| - 1]) {
      TrimEndCutsBlank(s[..|s| - 1]);
      var r := TrimEnd(s);
      forall k | |r| <= k < |s| ensures IsWhiteSpace(s[k]) {
        if k < |s| - 1 {
          assert s[k] == s[..|s| - 1][|r|..][k - |r|];
        }
      }
    }
  }

  /** `TrimEnd` cuts all trailing white space: what it keeps ends with a non-space. */
  lemma {:induction false} TrimEndLast(s: string)
    ensures TrimEnd(s) == [] || !IsWhiteSpace(TrimEnd(s)[|TrimEnd(s)| - 1])
  {
    if s != [] && IsWhiteSpace(s[|s| - 1]) {
      TrimEndLast(s[..|s| - 1]);
    }
  }

  /** `s.trim()`: `s` with its leading and trailing white space removed. */
  function Trim(s: string): string
  {
    TrimEnd(TrimStart(s))
  }

  /** Taking `n` elements of the suffix from `i` is the slice `s[i..i + n]`, and dropping them
      leaves the suffix from `i + n`. */
  lemma SuffixSplit<T>(s: seq<T>, i: nat, n: nat)
    requires i + n <= |s|
    ensures s[i..][..n] == s[i..i + n] && s[i..][n..] == s[i + n..]
  {
  }

  /** A prefix `r` of a suffix `a` of `s` is a slice of `s`. */
  lemma PrefixOfSuffix<T>(s: seq<T>, a: seq<T>, r: seq<T>)
    requires |a| <= |s| && a == s[|s| - |a|..] && |r| <= |a| && r == a[..|r|]
    ensures r == s[|s| - |a|..|s| - |a| + |r|]
  {
    SuffixSplit(s, |s| - |a|, |r|);
  }

  /** `Trim` cuts one contiguous piece `s[i..j]` out of `s`, where `i` is the length of the
      leading white space. */
  lemma TrimSlice(s: string)
    ensures var i := |s| - |TrimStart(s)|;
      i + |Trim(s)| <= |s| && Trim(s) == s[i..i + |Trim(s)|]
  {
    PrefixOfSuffix(s, TrimStart(s), Trim(s));
  }

  /** A blank tail of the suffix `a` of `s` from `i` is a blank tail of `s`. */
  lemma BlankSuffix(s: string, a: string, i: nat, n: nat)
    requires i + n <= |s| && a == s[i..] && IsBlank(a[n..])
    ensures IsBlank(s[i + n..])
  {
    forall k | i + n <= k < |s| ensures IsWhiteSpace(s[k]) {
      assert s[k] == a[n..][k - i - n];
    }
  }

  /** Only white space follows the piece `Trim` keeps. */
  lemma TrimTrailingBlank(s: string)
    ensures |s| - |TrimStart(s)| + |Trim(s)| <= |s|
    ensures IsBlank(s[|s| - |TrimStart(s)| + |Trim(s)|..])
  {
    var a := TrimStart(s);
    TrimEndCutsBlank(a);
    BlankSuffix(s, a, |s| - |a|, |TrimEnd(a)|);
  }

  /** Only white space lies around the piece `Trim` keeps. */
  lemma TrimMargins(s: string)
    ensures var i := |s| - |TrimStart(s)|;
      i + |Trim(s)| <= |s| && IsBlank(s[..i]) && IsBlank(s[i + |Trim(s)|..])
  {
    TrimStartCutsBlank(s);
    TrimTrailingBlank(s);
  }

  /** The trimmed text neither starts nor ends with white space. */
  lemma TrimEnds(s: string)
    ensures Trim(s) == [] || (!IsWhiteSpace(Trim(s)[0]) && !IsWhiteSpace(Trim(s)[|Trim(s)| - 1]))
  {
    var a := TrimStart(s);
    TrimStartFirst(s);
    TrimEndLast(a);
    if TrimEnd(a) != [] {
      assert TrimEnd(a)[0] == a[0];
    }
  }

  /** `!s.trim()`: trimming leaves nothing exactly when the string is all white space. */
  lemma TrimEmptyIffBlank(s: string)
    ensures Trim(s) == [] <==> IsBlank(s)
  {
    var a := TrimStart(s);
    TrimStartCutsBlank(s);
    TrimStartFirst(s);
    TrimEndCutsBlank(a);
    assert a == [] || a[0] == s[|s| - |a|];
    if Trim(s) == [] {
      assert IsBlank(a[0..]);
      assert a[0..] == a;
      assert s[..|s| - |a|] == s;
    }
  }

  /** Trimming twice is trimming once. */
  lemma TrimIdempotent(s: string)
    ensures Trim(Trim(s)) == Trim(s)
  {
    var t := Trim(s);
    TrimEnds(s);
    if t != [] {
      assert TrimStart(t) == t;
      assert TrimEnd(t) == t;
    }
  }

  /** ASCII upper-case letters map to lower case; every other character is kept. */
  function LowerChar(c: char): (r: char)
    ensures 'A' <= c <= 'Z' ==> r as int == c as int + 32
    ensures !('A' <= c <= 'Z') ==> r == c
    ensures !('A' <= r <= 'Z')
  {
    if 'A' <= c <= 'Z' then (c as int + 32) as char else c
  }

  /** `s.toLowerCase()`, restricted to ASCII case folding. */
  function Lower(s: string): (r: string)
    ensures |r| == |s|
    ensures forall i :: 0 <= i < |s| ==> r[i] == LowerChar(s[i])
  {
    seq(|s|, i requires 0 <= i < |s| => LowerChar(s[i]))
  }

  /** `needle` occurs in `hay` starting at index `i`. */
  ghost predicate OccursAt(hay: string, needle: string, i: int)
  {
    0 <= i && i + |needle| <= |hay| && hay[i..i + |needle|] == needle
  }

  function StartsWith(hay: string, needle: string): (r: bool)
    ensures r <==> OccursAt(hay, needle, 0)
  {
    |needle| <= |hay| && hay[..|needle|] == needle
  }

  /** `hay.includes(needle)`: some position of `hay` starts an occurrence of `needle`. */
  function Includes(hay: string, needle: string): (r: bool)
    ensures r <==> exists i :: OccursAt(hay, needle, i)
    decreases |hay|
  {
    if StartsWith(hay, needle) then true
    else if hay == [] then false
    else
      var r := Includes(hay[1..], needle);
      assert r ==> exists i :: OccursAt(hay, needle, i) by {
        if r {
          var i :| OccursAt(hay[1..], needle, i);
          assert hay[1..][i..i + |needle|] == hay[i + 1..i + 1 + |needle|];
          assert OccursAt(hay, needle, i + 1);
        }
      }
      assert (exists i :: OccursAt(hay, needle, i)) ==> r by {
        if exists i :: OccursAt(hay, needle, i) {
          var i :| OccursAt(hay, needle, i);
          assert i != 0;
          assert hay[1..][i - 1..i - 1 + |needle|] == hay[i..i + |needle|];
          assert OccursAt(hay[1..], needle, i - 1);
        }
      }
      r
  }

  predicate IsDigit(c: char)
  {
    '0' <= c <= '9'
  }

  predicate AllDigits(s: string)
  {
    forall i :: 0 <= i < |s| ==> IsDigit(s[i])
  }

  /** The decimal value of a digit string; the empty string reads as 0, as `Number("")` does. */
  function DigitsValue(s: string): (n: nat)
    requires AllDigits(s)
    ensures n < Pow10(|s|)
  {
    if s == [] then 0
    else
      var n := DigitsValue(s[..|s| - 1]);
      var d := s[|s| - 1] as int - '0' as int;
      assert n * 10 + d < Pow10(|s| - 1) * 10;
      n * 10 + d
  }

  function Pow10(k: nat): (p: nat)
    ensures p >= 1
  {
    if k == 0 then 1 else 10 * Pow10(k - 1)
  }

  /** The digit character for `0 <= d < 10`. */
  function DigitChar(d: nat): (c: char)
    requires d < 10
    ensures IsDigit(c) && c as int - '0' as int == d
  {
    ('0' as int + d) as char
  }

  /** A number below 100 written with two digits and a leading zero, as a time input shows it. */
  function TwoDigits(n: nat): (s: string)
    requires n < 100
    ensures |s| == 2 && AllDigits(s) && DigitsValue(s) == n
  {
    var s := [DigitChar(n / 10), DigitChar(n % 10)];
    assert s[..1] == [DigitChar(n / 10)];
    assert [DigitChar(n / 10)][..0] == [];
    s
  }

  /** The first `:`-separated field of `s` (the whole string when it has no colon). */
  function FieldBeforeColon(s: string): (r: string)
    ensures |r| <= |s| && r == s[..|r|]
    ensures ':' !in r
    ensures |r| < |s| ==> s[|r|] == ':'
  {
    if s == [] || s[0] == ':' then [] else [s[0]] + FieldBeforeColon(s[1..])
  }
}
