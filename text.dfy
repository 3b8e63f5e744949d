/** String operations of the JavaScript runtime that the core relies on:
    `String.prototype.trim`, `toLowerCase` (restricted to ASCII letters),
    `includes`, `Array.prototype.join` and the decimal rendering of an integer. */
module Text {

  /** ECMAScript WhiteSpace and LineTerminator code points: the set `trim` removes. */
  predicate IsJsWhitespace(c: char)
  {
    || c == ' ' || c == '\t' || c == '\n' || c == '\r'
    || c == '\U{000B}' || c == '\U{000C}' || c == '\U{00A0}' || c == '\U{1680}'
    || ('\U{2000}' <= c <= '\U{200A}')
    || c == '\U{2028}' || c == '\U{2029}' || c == '\U{202F}' || c == '\U{205F}'
    || c == '\U{3000}' || c == '\U{FEFF}'
  }

  predicate AllWhitespace(s: string)
  {
    forall i :: 0 <= i < |s| ==> IsJsWhitespace(s[i])
  }

  /** Drops leading whitespace (`TrimStartSpec` states what it does). */
  function TrimStart(s: string): string
  {
    if |s| > 0 && IsJsWhitespace(s[0]) then TrimStart(s[1..]) else s
  }

  /** What `TrimStart` drops is all whitespace and what remains is a suffix of `s` that
      does not start with whitespace. */
  lemma {:induction false} TrimStartSpec(s: string)
    ensures var r := TrimStart(s);
      |r| <= |s| && r == s[|s| - |r|..] && AllWhitespace(s[..|s| - |r|])
      && (|r| > 0 ==> !IsJsWhitespace(r[0]))
  {
    if |s| > 0 && IsJsWhitespace(s[0]) {
      TrimStartSpec(s[1..]);
      var r := TrimStart(s[1..]);
      assert s[1..][..|s| - 1 - |r|] == s[1..|s| - |r|];
    }
  }

  /** Drops trailing whitespace, symmetrically to `TrimStart`. */
  function TrimEnd(s: string): string
  {
    if |s| > 0 && IsJsWhitespace(s[|s| - 1]) then TrimEnd(s[..|s| - 1]) else s
  }

  lemma {:induction false} TrimEndSpec(s: string)
    ensures var r := TrimEnd(s);
      |r| <= |s| && r == s[..|r|] && AllWhitespace(s[|r|..])
      && (|r| > 0 ==> !IsJsWhitespace(r[|r| - 1]))
  {
    if |s| > 0 && IsJsWhitespace(s[|s| - 1]) {
      TrimEndSpec(s[..|s| - 1]);
      var r := TrimEnd(s[..|s| - 1]);
      assert s[..|s| - 1][|r|..] + [s[|s| - 1]] == s[|r|..];
    }
  }

  function Trim(s: string): (r: string)
  {
    TrimEnd(TrimStart(s))
  }

  /** `s.trim()` is a contiguous piece of `s` with only whitespace cut from either end,
      and its ends are not whitespace. */
  lemma TrimIsTrimmedSlice(s: string)
    ensures var r := Trim(s);
      exists i {:trigger s[i..]} :: 0 <= i <= |s| - |r| && s[i..i + |r|] == r
        && AllWhitespace(s[..i]) && AllWhitespace(s[i + |r|..])
    ensures |Trim(s)| > 0 ==> !IsJsWhitespace(Trim(s)[0]) && !IsJsWhitespace(Trim(s)[|Trim(s)| - 1])
  {
    var t := TrimStart(s);
    var r := TrimEnd(t);
    TrimStartSpec(s);
    TrimEndSpec(t);
    var i := |s| - |t|;
    assert s[i..i + |r|] == t[..|r|] == r;
    assert s[i + |r|..] == t[|r|..];
  }

  /** A string trims to nothing exactly when it consists of whitespace only. */
  lemma {:induction false} TrimEmptyIffAllWhitespace(s: string)
    ensures |Trim(s)| == 0 <==> AllWhitespace(s)
  {
    var t := TrimStart(s);
    TrimStartSpec(s);
    TrimEndSpec(t);
    if |t| == 0 {
      assert s[..|s| - |t|] == s;
    } else {
      assert !IsJsWhitespace(s[|s| - |t|]);
      assert |TrimEnd(t)| > 0;
    }
  }

  /** A string with a non-whitespace character does not trim to nothing. */
  lemma NonWhitespaceSurvivesTrim(s: string, i: nat)
    requires i < |s| && !IsJsWhitespace(s[i])
    ensures |Trim(s)| > 0
  {
    TrimEmptyIffAllWhitespace(s);
  }

  /** Trimming twice is trimming once. */
  lemma TrimIdempotent(s: string)
    ensures Trim(Trim(s)) == Trim(s)
  {
    var r := Trim(s);
    if |r| > 0 {
      TrimIsTrimmedSlice(s);
      assert TrimStart(r) == r;
      assert TrimEnd(r) == r;
    }
  }

  /** A string that `trim` leaves alone: empty, or with non-whitespace at both ends. */
  predicate IsTrimmed(s: string)
  {
    |s| == 0 || (!IsJsWhitespace(s[0]) && !IsJsWhitespace(s[|s| - 1]))
  }

  /** `IsTrimmed` characterises the fixed points of `trim`. */
  lemma TrimmedIffFixed(s: string)
    ensures IsTrimmed(s) <==> Trim(s) == s
  {
    if IsTrimmed(s) && |s| > 0 {
      assert TrimStart(s) == s;
      assert TrimEnd(s) == s;
    }
    TrimIsTrimmedSlice(s);
  }

  function LowerChar(c: char): char
  {
    if 'A' <= c <= 'Z' then (c as int + 32) as char else c
  }

  /** `toLowerCase`, restricted to the ASCII letters. */
  function Lower(s: string): (r: string)
    ensures |r| == |s|
    ensures forall i :: 0 <= i < |s| ==> r[i] == LowerChar(s[i])
  {
    seq(|s|, i requires 0 <= i < |s| => LowerChar(s[i]))
  }

  lemma LowerIdempotent(s: string)
    ensures Lower(Lower(s)) == Lower(s)
  {
  }

  predicate IsPrefix(p: string, s: string)
  {
    |p| <= |s| && s[..|p|] == p
  }

  /** `h.includes(n)`: `n` occurs in `h` at some offset; the empty string occurs everywhere. */
  predicate Contains(h: string, n: string)
    decreases |h|
  {
    IsPrefix(n, h) || (|h| > 0 && Contains(h[1..], n))
  }

  lemma {:induction false} ContainsAt(h: string, n: string)
    requires Contains(h, n)
    ensures exists i {:trigger h[i..]} :: 0 <= i <= |h| - |n| && h[i..][..|n|] == n
    decreases |h|
  {
    if IsPrefix(n, h) {
      assert h[0..] == h;
    } else {
      ContainsAt(h[1..], n);
      var i :| 0 <= i <= |h| - 1 - |n| && h[1..][i..][..|n|] == n;
      assert h[1..][i..] == h[i + 1..];
    }
  }

  lemma {:induction false} OccurrenceContains(h: string, n: string, i: nat)
    requires i <= |h| - |n| && h[i..][..|n|] == n
    ensures Contains(h, n)
    decreases i
  {
    if i > 0 {
      assert h[1..][i - 1..] == h[i..];
      OccurrenceContains(h[1..], n, i - 1);
    }
  }

  /** `Contains` is exactly "occurs at some offset". */
  lemma ContainsIff(h: string, n: string)
    ensures Contains(h, n) <==> exists i {:trigger h[i..]} :: 0 <= i <= |h| - |n| && h[i..][..|n|] == n
  {
    if Contains(h, n) {
      ContainsAt(h, n);
    }
    if exists i {:trigger h[i..]} :: 0 <= i <= |h| - |n| && h[i..][..|n|] == n {
      var i :| 0 <= i <= |h| - |n| && h[i..][..|n|] == n;
      OccurrenceContains(h, n, i);
    }
  }

  /** `parts.join(sep)`. */
  function Join(parts: seq<string>, sep: string): string
  {
    if |parts| == 0 then ""
    else if |parts| == 1 then parts[0]
    else parts[0] + sep + Join(parts[1..], sep)
  }

  /** Text found in `s` is found in `s` followed by anything. */
  lemma {:induction false} ContainsBefore(s: string, t: string, n: string)
    requires Contains(s, n)
    ensures Contains(s + t, n)
    decreases |s|
  {
    if IsPrefix(n, s) {
      assert (s + t)[..|n|] == s[..|n|];
    } else {
      assert (s + t)[1..] == s[1..] + t;
      ContainsBefore(s[1..], t, n);
    }
  }

  /** Text found in `s` is found in anything followed by `s`. */
  lemma {:induction false} ContainsAfter(p: string, s: string, n: string)
    requires Contains(s, n)
    ensures Contains(p + s, n)
    decreases |p|
  {
    if |p| == 0 {
      assert p + s == s;
    } else {
      assert (p + s)[1..] == p[1..] + s;
      ContainsAfter(p[1..], s, n);
    }
  }

  /** Text found in one of the parts is found in their join. */
  lemma {:induction false} JoinContainsPart(parts: seq<string>, sep: string, k: nat, n: string)
    requires k < |parts| && Contains(parts[k], n)
    ensures Contains(Join(parts, sep), n)
    decreases k
  {
    if |parts| > 1 {
      var rest := Join(parts[1..], sep);
      assert Join(parts, sep) == parts[0] + (sep + rest);
      if k == 0 {
        ContainsBefore(parts[0], sep + rest, n);
      } else {
        JoinContainsPart(parts[1..], sep, k - 1, n);
        assert parts[0] + (sep + rest) == (parts[0] + sep) + rest;
        ContainsAfter(parts[0] + sep, rest, n);
      }
    }
  }

  /** Lower-casing both sides keeps an occurrence. */
  lemma {:induction false} LowerContains(h: string, n: string)
    requires Contains(h, n)
    ensures Contains(Lower(h), Lower(n))
    decreases |h|
  {
    if IsPrefix(n, h) {
      assert Lower(h)[..|n|] == Lower(n);
    } else {
      LowerContains(h[1..], n);
      assert Lower(h)[1..] == Lower(h[1..]);
    }
  }

  function DigitChar(d: nat): char
    requires d < 10
  {
    "0123456789"[d]
  }

  function DigitValue(c: char): nat
  {
    if '0' <= c <= '9' then c as int - '0' as int else 0
  }

  predicate IsDigit(c: char)
  {
    '0' <= c <= '9'
  }

  /** Decimal rendering of a natural number, without leading zeros. */
  function NatToString(n: nat): (r: string)
    ensures |r| > 0
    ensures forall i :: 0 <= i < |r| ==> IsDigit(r[i])
    ensures |r| > 1 ==> r[0] != '0'
  {
    if n < 10 then [DigitChar(n)] else NatToString(n / 10) + [DigitChar(n % 10)]
  }

  /** The value of a string of decimal digits. */
  function DigitsValue(s: string): nat
  {
    if |s| == 0 then 0 else 10 * DigitsValue(s[..|s| - 1]) + DigitValue(s[|s| - 1])
  }

  /** Rendering then reading back gives the number. */
  lemma {:induction false} NatToStringRoundTrip(n: nat)
    ensures DigitsValue(NatToString(n)) == n
  {
    var r := NatToString(n);
    if n >= 10 {
      NatToStringRoundTrip(n / 10);
      assert r[..|r| - 1] == NatToString(n / 10);
    }
  }

  /** `${n}` for an integer. */
  function IntToString(n: int): (r: string)
  {
    if n < 0 then "-" + NatToString(-n) else NatToString(n)
  }

  /** The rendering starts with '-' exactly for negative numbers. */
  lemma SignMark(n: int)
    ensures |IntToString(n)| > 0
    ensures IntToString(n)[0] == '-' <==> n < 0
  {
    if n >= 0 {
      assert IsDigit(NatToString(n)[0]);
    }
  }

  /** Different integers render differently. */
  lemma IntToStringInjective(a: int, b: int)
    requires IntToString(a) == IntToString(b)
    ensures a == b
  {
    SignMark(a);
    SignMark(b);
    if a < 0 {
      var na: nat, nb: nat := -a, -b;
      assert IntToString(a) == "-" + NatToString(na);
      assert IntToString(b) == "-" + NatToString(nb);
      assert ("-" + NatToString(na))[1..] == NatToString(na);
      assert ("-" + NatToString(nb))[1..] == NatToString(nb);
      NatToStringRoundTrip(na);
      NatToStringRoundTrip(nb);
    } else {
      assert b >= 0;
      assert NatToString(a) == IntToString(a) == IntToString(b) == NatToString(b);
      NatToStringRoundTrip(a);
      NatToStringRoundTrip(b);
      assert a == b;
    }
  }
}
