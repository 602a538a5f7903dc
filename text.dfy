/**
 * JavaScript string operations the extension relies on, over Dafny strings
 * (sequences of Unicode scalar values): `trim`, `includes`, `startsWith`,
 * `padStart`, `join`, `split` on one character, decimal `String(n)`, ASCII
 * `toLowerCase`, and the UTF-16 code units that `charCodeAt` reads.
 */
module Text {

  /** ECMAScript WhiteSpace and LineTerminator code points: what `trim()` strips and `\s` matches. */
  predicate IsSpace(c: char) {
    || c == '\t' || c == '\n' || c == '\U{000B}' || c == '\U{000C}' || c == '\r' || c == ' '
    || c == '\U{00A0}' || c == '\U{1680}' || ('\U{2000}' <= c <= '\U{200A}')
    || c == '\U{2028}' || c == '\U{2029}' || c == '\U{202F}' || c == '\U{205F}'
    || c == '\U{3000}' || c == '\U{FEFF}'
  }

  /** No white space at either end: the shape of every value `trim()` returns. */
  predicate IsTrimmed(s: string) {
    s == [] || (!IsSpace(s[0]) && !IsSpace(s[|s| - 1]))
  }

  predicate AllSpace(s: string) {
    forall i :: 0 <= i < |s| ==> IsSpace(s[i])
  }

  predicate NoSpace(s: string) {
    forall i :: 0 <= i < |s| ==> !IsSpace(s[i])
  }

  function TrimStart(s: string): (r: string)
    ensures |r| <= |s|
  {
    if s != [] && IsSpace(s[0]) then TrimStart(s[1..]) else s
  }

  function TrimEnd(s: string): (r: string)
    ensures |r| <= |s|
  {
    if s != [] && IsSpace(s[|s| - 1]) then TrimEnd(s[..|s| - 1]) else s
  }

  /** `trimStart` removes exactly the leading white space. */
  lemma {:induction false} TrimStartSpec(s: string)
    ensures var r := TrimStart(s);
      r == s[|s| - |r|..] && AllSpace(s[..|s| - |r|]) && (r == [] || !IsSpace(r[0]))
    decreases |s|
  {
    if s != [] && IsSpace(s[0]) {
      TrimStartSpec(s[1..]);
      var r := TrimStart(s);
      assert s[1..][|s| - 1 - |r|..] == s[|s| - |r|..];
      var p := s[..|s| - |r|];
      forall i | 0 <= i < |p| ensures IsSpace(p[i]) {
        if i > 0 { assert p[i] == s[1..][..|s| - 1 - |r|][i - 1]; }
      }
    }
  }

  /** `trimEnd` removes exactly the trailing white space. */
  lemma {:induction false} TrimEndSpec(s: string)
    ensures var r := TrimEnd(s);
      r == s[..|r|] && AllSpace(s[|r|..]) && (r == [] || !IsSpace(r[|r| - 1]))
    decreases |s|
  {
    if s != [] && IsSpace(s[|s| - 1]) {
      var init := s[..|s| - 1];
      TrimEndSpec(init);
      var r := TrimEnd(s);
      assert init[..|r|] == s[..|r|];
      var p := s[|r|..];
      forall i | 0 <= i < |p| ensures IsSpace(p[i]) {
        if i < |p| - 1 { assert p[i] == init[|r|..][i]; }
      }
    }
  }

  /** `String.prototype.trim`. */
  function Trim(s: string): (r: string)
    ensures |r| <= |s|
  {
    TrimEnd(TrimStart(s))
  }

  /** `s` is white space, then `Trim(s)`, then white space. */
  lemma {:induction false} TrimSpan(s: string) returns (a: nat, b: nat)
    ensures a <= b <= |s| && Trim(s) == s[a..b]
    ensures AllSpace(s[..a]) && AllSpace(s[b..])
  {
    var t := TrimStart(s);
    var r := TrimEnd(t);
    TrimStartSpec(s);
    TrimEndSpec(t);
    a := |s| - |t|;
    b := a + |r|;
    assert r == s[a..b];
    assert s[b..] == t[|r|..];
  }

  /** What `trim()` returns has no white space at either end. */
  lemma {:induction false} TrimIsTrimmed(s: string)
    ensures IsTrimmed(Trim(s))
  {
    var t := TrimStart(s);
    var r := TrimEnd(t);
    TrimStartSpec(s);
    TrimEndSpec(t);
    if r != [] {
      assert r[0] == t[0];
    }
  }

  lemma {:induction false} TrimOfTrimmed(s: string)
    requires IsTrimmed(s)
    ensures Trim(s) == s
  {
  }

  lemma {:induction false} TrimIdempotent(s: string)
    ensures Trim(Trim(s)) == Trim(s)
  {
    TrimIsTrimmed(s);
    TrimOfTrimmed(Trim(s));
  }

  lemma {:induction false} TrimAllSpace(s: string)
    requires AllSpace(s)
    ensures Trim(s) == []
  {
    if s != [] {
      assert IsSpace(s[0]);
      assert TrimStart(s) == TrimStart(s[1..]);
      TrimAllSpace(s[1..]);
    }
  }

  /** `trimStart` drops exactly a leading run of white space. */
  lemma {:induction false} TrimStartSpaces(ws: string, t: string)
    requires AllSpace(ws) && (t == [] || !IsSpace(t[0]))
    ensures TrimStart(ws + t) == t
    decreases |ws|
  {
    if ws == [] {
      assert ws + t == t;
    } else {
      assert (ws + t)[0] == ws[0];
      assert (ws + t)[1..] == ws[1..] + t;
      TrimStartSpaces(ws[1..], t);
    }
  }

  /** Trimming text that has no white space keeps it whole. */
  lemma {:induction false} TrimNoSpace(s: string)
    requires forall i :: 0 <= i < |s| ==> !IsSpace(s[i])
    ensures Trim(s) == s
  {
  }

  predicate StartsWith(s: string, prefix: string) {
    |prefix| <= |s| && s[..|prefix|] == prefix
  }

  predicate EndsWith(s: string, suffix: string) {
    |suffix| <= |s| && s[|s| - |suffix|..] == suffix
  }

  /** `s.includes(sub)`. */
  predicate Contains(s: string, sub: string)
    decreases |s|
  {
    StartsWith(s, sub) || (s != [] && Contains(s[1..], sub))
  }

  /** A piece of a slice is the matching piece of the whole. */
  lemma {:induction false} SliceOfSlice(s: string, a: nat, b: nat, i: nat, k: nat)
    requires a <= b <= |s| && i + k <= b - a
    ensures s[a..b][i..i + k] == s[a + i..a + i + k]
  {
    var x, y := s[a..b][i..i + k], s[a + i..a + i + k];
    forall q | 0 <= q < k
      ensures x[q] == y[q]
    {
    }
  }

  lemma {:induction false} ContainsAt(s: string, sub: string, i: nat)
    requires i + |sub| <= |s| && s[i..i + |sub|] == sub
    ensures Contains(s, sub)
  {
    if i > 0 {
      assert s[1..][i - 1..i - 1 + |sub|] == sub;
      ContainsAt(s[1..], sub, i - 1);
    }
  }

  lemma {:induction false} ContainsInMiddle(a: string, sub: string, b: string)
    ensures Contains(a + sub + b, sub)
  {
    var s := a + sub + b;
    assert s[|a|..|a| + |sub|] == sub;
    ContainsAt(s, sub, |a|);
  }

  lemma {:induction false} ContainsWitness(s: string, sub: string) returns (i: nat)
    requires Contains(s, sub)
    ensures i + |sub| <= |s| && s[i..i + |sub|] == sub
    decreases |s|
  {
    if StartsWith(s, sub) {
      i := 0;
    } else {
      var j := ContainsWitness(s[1..], sub);
      i := j + 1;
      assert s[i..i + |sub|] == s[1..][j..j + |sub|];
    }
  }

  /** An occurrence of `sub` whose characters are all non-space survives `trim`. */
  lemma {:induction false} ContainsTrim(s: string, sub: string)
    requires sub != [] && forall i :: 0 <= i < |sub| ==> !IsSpace(sub[i])
    ensures Contains(Trim(s), sub) <==> Contains(s, sub)
  {
    if Contains(Trim(s), sub) {
      ContainsTrimmedPart(s, sub);
    }
    if Contains(s, sub) {
      ContainsKeptByTrim(s, sub);
    }
  }

  lemma {:induction false} ContainsTrimmedPart(s: string, sub: string)
    requires Contains(Trim(s), sub)
    ensures Contains(s, sub)
  {
    var a, b := TrimSpan(s);
    var t := Trim(s);
    var i := ContainsWitness(t, sub);
    SliceOfSlice(s, a, b, i, |sub|);
    ContainsAt(s, sub, a + i);
  }

  lemma {:induction false} ContainsKeptByTrim(s: string, sub: string)
    requires sub != [] && forall i :: 0 <= i < |sub| ==> !IsSpace(sub[i])
    requires Contains(s, sub)
    ensures Contains(Trim(s), sub)
  {
    var a, b := TrimSpan(s);
    var i := ContainsWitness(s, sub);
    OccurrenceInside(s, sub, a, b, i);
    ContainsInSlice(s, sub, a, b, i);
  }

  lemma {:induction false} OccurrenceInside(s: string, sub: string, a: nat, b: nat, i: nat)
    requires sub != [] && forall k :: 0 <= k < |sub| ==> !IsSpace(sub[k])
    requires a <= b <= |s| && AllSpace(s[..a]) && AllSpace(s[b..])
    requires i + |sub| <= |s| && s[i..i + |sub|] == sub
    ensures a <= i && i + |sub| <= b
  {
    var j: nat := i + |sub| - 1;
    OccurrenceEdges(s, sub, i);
    if i < a { SpaceInPrefix(s, a, i); assert false; }
    if j >= b { SpaceInSuffix(s, b, j); assert false; }
  }

  lemma {:induction false} ContainsInSlice(s: string, sub: string, a: nat, b: nat, i: nat)
    requires a <= i && i + |sub| <= b <= |s| && s[i..i + |sub|] == sub
    ensures Contains(s[a..b], sub)
  {
    SliceOfSlice(s, a, b, i - a, |sub|);
    ContainsAt(s[a..b], sub, i - a);
  }

  lemma {:induction false} OccurrenceEdges(s: string, sub: string, i: nat)
    requires sub != [] && forall k :: 0 <= k < |sub| ==> !IsSpace(sub[k])
    requires i + |sub| <= |s| && s[i..i + |sub|] == sub
    ensures !IsSpace(s[i]) && !IsSpace(s[i + |sub| - 1])
  {
    assert s[i..i + |sub|][0] == s[i];
    assert s[i..i + |sub|][|sub| - 1] == s[i + |sub| - 1];
  }

  lemma {:induction false} SpaceInPrefix(s: string, a: nat, i: nat)
    requires i < a <= |s| && AllSpace(s[..a])
    ensures IsSpace(s[i])
  {
    assert s[..a][i] == s[i];
  }

  lemma {:induction false} SpaceInSuffix(s: string, b: nat, j: nat)
    requires b <= j < |s| && AllSpace(s[b..])
    ensures IsSpace(s[j])
  {
    assert s[b..][j - b] == s[j];
  }

  function Repeat(c: char, n: nat): (r: string)
    ensures |r| == n && forall i :: 0 <= i < n ==> r[i] == c
  {
    if n == 0 then [] else [c] + Repeat(c, n - 1)
  }

  /** `s.padStart(width, c)` for a one-character pad string. */
  function PadStart(s: string, width: nat, c: char): (r: string)
    ensures |r| == if |s| >= width then |s| else width
    ensures r[|r| - |s|..] == s
    ensures forall i :: 0 <= i < |r| - |s| ==> r[i] == c
  {
    if |s| >= width then s else Repeat(c, width - |s|) + s
  }

  predicate IsDigit(c: char) {
    '0' <= c <= '9'
  }

  predicate AllDigits(s: string) {
    forall i :: 0 <= i < |s| ==> IsDigit(s[i])
  }

  function DigitChar(d: nat): (c: char)
    requires d < 10
    ensures IsDigit(c)
  {
    ('0' as int + d) as char
  }

  function DigitValue(c: char): (d: nat)
    requires IsDigit(c)
    ensures d < 10
  {
    c as int - '0' as int
  }

  /** Decimal text of a natural number, without leading zeros (`String(n)`). */
  function NatToString(n: nat): (r: string)
    ensures |r| >= 1 && AllDigits(r)
    ensures |r| > 1 ==> r[0] != '0'
    decreases n
  {
    if n < 10 then [DigitChar(n)] else NatToString(n / 10) + [DigitChar(n % 10)]
  }

  /** `String(i)` for an integer. */
  function IntToString(i: int): (r: string)
    ensures r != []
  {
    if i < 0 then "-" + NatToString(-i) else NatToString(i)
  }

  /** The value of a string of decimal digits; leading zeros do not count (`Number("007")`). */
  function DigitsValue(s: string): nat
    requires AllDigits(s)
  {
    if s == [] then 0 else DigitsValue(s[..|s| - 1]) * 10 + DigitValue(s[|s| - 1])
  }

  lemma {:induction false} NatToStringRoundTrip(n: nat)
    ensures DigitsValue(NatToString(n)) == n
    decreases n
  {
    if n >= 10 {
      var s := NatToString(n);
      assert s[..|s| - 1] == NatToString(n / 10);
      NatToStringRoundTrip(n / 10);
    }
  }

  /** k digits are worth less than 10^k. */
  lemma {:induction false} DigitsValueBound(s: string)
    requires AllDigits(s)
    ensures DigitsValue(s) < Pow10(|s|)
    decreases |s|
  {
    if s != [] {
      DigitsValueBound(s[..|s| - 1]);
    }
  }

  lemma {:induction false} NatToStringInjective(a: nat, b: nat)
    requires NatToString(a) == NatToString(b)
    ensures a == b
  {
    NatToStringRoundTrip(a);
    NatToStringRoundTrip(b);
  }

  lemma {:induction false} LeadingZeros(k: nat, s: string)
    requires AllDigits(s)
    ensures AllDigits(Repeat('0', k) + s)
    ensures DigitsValue(Repeat('0', k) + s) == DigitsValue(s)
    decreases |s|
  {
    var z := Repeat('0', k);
    if s == [] {
      assert z + s == z;
      ZerosValue(k);
    } else {
      var t := z + s;
      assert t[..|t| - 1] == z + s[..|s| - 1];
      LeadingZeros(k, s[..|s| - 1]);
    }
  }

  lemma {:induction false} ZerosValue(k: nat)
    ensures AllDigits(Repeat('0', k)) && DigitsValue(Repeat('0', k)) == 0
  {
    if k > 0 {
      var z := Repeat('0', k);
      assert z[..k - 1] == Repeat('0', k - 1);
      ZerosValue(k - 1);
    }
  }

  /** Zero-padding, as `String(n).padStart(w, '0')`, keeps the value readable back. */
  lemma {:induction false} PaddedRoundTrip(n: nat, width: nat)
    ensures AllDigits(PadStart(NatToString(n), width, '0'))
    ensures DigitsValue(PadStart(NatToString(n), width, '0')) == n
  {
    var s := NatToString(n);
    NatToStringRoundTrip(n);
    if |s| < width {
      LeadingZeros(width - |s|, s);
    }
  }

  /** Exactly `width` digits when the number is small enough. */
  lemma {:induction false} PaddedWidth(n: nat, width: nat)
    requires width >= 1
    ensures n < Pow10(width) ==> |PadStart(NatToString(n), width, '0')| == width
  {
    if n < Pow10(width) {
      NatToStringLength(n, width);
    }
  }

  /** Two digits for a number below 100. */
  lemma {:induction false} PaddedWidth2(n: nat)
    requires n < 100
    ensures |PadStart(NatToString(n), 2, '0')| == 2
  {
    assert Pow10(2) == 100 by { assert Pow10(1) == 10 * Pow10(0); }
    PaddedWidth(n, 2);
  }

  /** Three digits for a number below 1000. */
  lemma {:induction false} PaddedWidth3(n: nat)
    requires n < 1000
    ensures |PadStart(NatToString(n), 3, '0')| == 3
  {
    assert Pow10(3) == 1000 by { assert Pow10(1) == 10 * Pow10(0); assert Pow10(2) == 10 * Pow10(1); }
    PaddedWidth(n, 3);
  }

  function Pow10(k: nat): (p: nat)
    ensures p >= 1
  {
    if k == 0 then 1 else 10 * Pow10(k - 1)
  }

  lemma {:induction false} NatToStringLength(n: nat, width: nat)
    requires width >= 1 && n < Pow10(width)
    ensures |NatToString(n)| <= width
    decreases n
  {
    if n >= 10 {
      assert Pow10(1) == 10 * Pow10(0);
      assert width >= 2;
      assert n / 10 < Pow10(width - 1);
      NatToStringLength(n / 10, width - 1);
    }
  }

  /** `parts.join(sep)`. */
  function Join(parts: seq<string>, sep: string): string
  {
    if |parts| == 0 then ""
    else if |parts| == 1 then parts[0]
    else parts[0] + sep + Join(parts[1..], sep)
  }

  /** `s.split(sep)` for a one-character separator: the pieces between separators, at least one. */
  function SplitOn(s: string, sep: char): (r: seq<string>)
    ensures |r| >= 1
    decreases |s|
  {
    if s == [] then [""]
    else
      var rest := SplitOn(s[1..], sep);
      if s[0] == sep then [""] + rest
      else [[s[0]] + rest[0]] + rest[1..]
  }

  /** No piece holds the separator. */
  lemma {:induction false} SplitOnNoSep(s: string, sep: char)
    ensures forall k :: 0 <= k < |SplitOn(s, sep)| ==> sep !in SplitOn(s, sep)[k]
    decreases |s|
  {
    if s != [] {
      SplitOnNoSep(s[1..], sep);
      var rest := SplitOn(s[1..], sep);
      if s[0] != sep {
        var r := SplitOn(s, sep);
        forall k | 0 <= k < |r| ensures sep !in r[k] {
          if k == 0 {
            assert r[0] == [s[0]] + rest[0];
          } else {
            assert r[k] == rest[k];
          }
        }
      }
    }
  }

  /** Splitting undoes joining when no piece holds the separator. */
  lemma {:induction false} SplitJoin(parts: seq<string>, sep: char)
    requires |parts| >= 1
    requires forall k :: 0 <= k < |parts| ==> sep !in parts[k]
    ensures SplitOn(Join(parts, [sep]), sep) == parts
    decreases |parts|, |parts[0]|
  {
    var p := parts[0];
    if p == [] {
      if |parts| == 1 {
      } else {
        assert Join(parts, [sep]) == [sep] + Join(parts[1..], [sep]);
        SplitJoin(parts[1..], sep);
      }
    } else {
      var parts' := [p[1..]] + parts[1..];
      SplitJoin(parts', sep);
      assert p[0] != sep && [p[0]] + p[1..] == p;
      if |parts| == 1 {
        assert Join(parts, [sep]) == p;
      } else {
        assert Join(parts, [sep]) == [p[0]] + Join(parts', [sep]);
      }
    }
  }

  /** ASCII `toLowerCase`. */
  function ToLowerAscii(s: string): (r: string)
    ensures |r| == |s|
    ensures forall i :: 0 <= i < |s| ==> r[i] == LowerChar(s[i])
  {
    if s == [] then [] else [LowerChar(s[0])] + ToLowerAscii(s[1..])
  }

  function LowerChar(c: char): char {
    if 'A' <= c <= 'Z' then (c as int + 32) as char else c
  }

  /** The UTF-16 code units of one code point: one unit, or a surrogate pair above U+FFFF. */
  function CharUnits(c: char): (u: seq<int>)
    ensures 1 <= |u| <= 2 && forall k :: 0 <= k < |u| ==> 0 <= u[k] < 0x1_0000
  {
    var v := c as int;
    if v < 0x1_0000 then [v]
    else [0xD800 + (v - 0x1_0000) / 0x400, 0xDC00 + (v - 0x1_0000) % 0x400]
  }

  /** The UTF-16 code units of a string, the values `charCodeAt` reads in order. */
  function CodeUnits(s: string): (u: seq<int>)
    ensures |u| >= |s|
    ensures forall k :: 0 <= k < |u| ==> 0 <= u[k] < 0x1_0000
  {
    if s == [] then [] else CharUnits(s[0]) + CodeUnits(s[1..])
  }
}
