/**
 * The JavaScript string built-ins the form relies on: the whitespace that
 * `String.prototype.trim` removes and that `\s` matches, `trim` itself, and
 * the conversion `Number(s)` that a comparison such as `age < 2` applies to
 * a string, modelled only for the empty or all-whitespace string and, after
 * trimming, an optional sign followed by ASCII decimal digits.
 */
module JsString {
  import opened Wrappers

  /** ECMAScript WhiteSpace and LineTerminator code points (the Zs category
      written out). `trim` strips exactly these and `\S` matches anything else. */
  predicate IsSpace(c: char)
    ensures c == ' ' || c == '\t' || c == '\n' || c == '\r' ==> IsSpace(c)
    ensures ' ' < c <= '~' ==> !IsSpace(c)
  {
    || c == '\t' || c == '\U{000B}' || c == '\U{000C}' || c == ' '
    || c == '\U{00A0}' || c == '\U{FEFF}' || c == '\U{1680}'
    || ('\U{2000}' <= c <= '\U{200A}')
    || c == '\U{202F}' || c == '\U{205F}' || c == '\U{3000}'
    || c == '\n' || c == '\r' || c == '\U{2028}' || c == '\U{2029}'
  }

  /** A string made of whitespace only (the empty string included). */
  ghost predicate IsBlank(s: string)
  {
    forall i | 0 <= i < |s| :: IsSpace(s[i])
  }

  /** Removes the leading whitespace: the result is the suffix of `s` after a
      run of whitespace, and it does not start with whitespace. */
  function TrimStart(s: string): (r: string)
    ensures |r| <= |s| && r == s[|s| - |r|..]
    ensures forall i | 0 <= i < |s| - |r| :: IsSpace(s[i])
    ensures r != [] ==> !IsSpace(r[0])
  {
    if s != [] && IsSpace(s[0]) then TrimStart(s[1..]) else s
  }

  /** Removes the trailing whitespace: the result is the prefix of `s` before a
      run of whitespace, and it does not end with whitespace. */
  function TrimEnd(s: string): (r: string)
    ensures |r| <= |s| && r == s[..|r|]
    ensures forall i | |r| <= i < |s| :: IsSpace(s[i])
    ensures r != [] ==> !IsSpace(r[|r| - 1])
  {
    if s != [] && IsSpace(s[|s| - 1]) then TrimEnd(s[..|s| - 1]) else s
  }

  /** `r` is the slice of `s` starting at `k` with only whitespace around it. */
  ghost predicate StrippedAt(s: string, k: int, r: string)
  {
    && 0 <= k && k + |r| <= |s| && r == s[k..k + |r|]
    && (forall i | 0 <= i < k :: IsSpace(s[i]))
    && (forall i | k + |r| <= i < |s| :: IsSpace(s[i]))
  }

  /** `String.prototype.trim`. */
  function Trim(s: string): (r: string)
    ensures StrippedAt(s, |s| - |TrimStart(s)|, r)
    ensures r != [] ==> !IsSpace(r[0]) && !IsSpace(r[|r| - 1])
    ensures r == [] <==> IsBlank(s)
    ensures s == [] || (!IsSpace(s[0]) && !IsSpace(s[|s| - 1])) ==> r == s
  {
    TrimStripped(s);
    TrimBlank(s);
    TrimKeeps(s);
    TrimEnd(TrimStart(s))
  }

  lemma TrimStripped(s: string)
    ensures StrippedAt(s, |s| - |TrimStart(s)|, TrimEnd(TrimStart(s)))
  {
    var t := TrimStart(s);
    SuffixThenPrefix(s, |s| - |t|, t, TrimEnd(t));
  }

  /** A prefix `r` of the suffix `t == s[k..]`, with whitespace before `k` and
      after `r`, is a stripped slice of `s`. */
  lemma SuffixThenPrefix(s: string, k: int, t: string, r: string)
    requires 0 <= k <= |s| && t == s[k..] && |r| <= |t| && r == t[..|r|]
    requires forall i | 0 <= i < k :: IsSpace(s[i])
    requires forall i | |r| <= i < |t| :: IsSpace(t[i])
    ensures StrippedAt(s, k, r)
  {
    assert r == s[k..k + |r|];
    forall i | k + |r| <= i < |s| ensures IsSpace(s[i]) {
      assert s[i] == t[i - k];
    }
  }

  lemma TrimBlank(s: string)
    ensures TrimEnd(TrimStart(s)) == [] <==> IsBlank(s)
  {
    TrimStripped(s);
    var r := TrimEnd(TrimStart(s));
    if r != [] {
      var k := |s| - |TrimStart(s)|;
      assert r[0] == s[k] && !IsSpace(s[k]);
    }
  }

  lemma TrimKeeps(s: string)
    ensures s == [] || (!IsSpace(s[0]) && !IsSpace(s[|s| - 1])) ==> TrimEnd(TrimStart(s)) == s
  {
    if s != [] && !IsSpace(s[0]) && !IsSpace(s[|s| - 1]) {
      assert TrimStart(s) == s;
      assert TrimEnd(s) == s;
    }
  }

  predicate IsDigit(c: char)
  {
    '0' <= c <= '9'
  }

  predicate AllDigits(s: string)
  {
    forall i | 0 <= i < |s| :: IsDigit(s[i])
  }

  function DigitValue(c: char): nat
    requires IsDigit(c)
  {
    c as int - '0' as int
  }

  /** The number a string of decimal digits denotes, most significant first. */
  function DigitsValue(s: string): nat
    requires AllDigits(s)
  {
    if s == [] then 0 else DigitsValue(s[..|s| - 1]) * 10 + DigitValue(s[|s| - 1])
  }

  /** JavaScript's `Number(s)`, modelled only for the empty or all-whitespace
      string (0) and for an optional sign followed by ASCII decimal digits,
      after trimming. Every other string gives `None`. */
  function ToWholeNumber(s: string): (r: Option<int>)
    ensures IsBlank(s) ==> r == Some(0)
  {
    var t := Trim(s);
    if t == [] then Some(0)
    else if (t[0] == '-' || t[0] == '+') && |t| > 1 && AllDigits(t[1..]) then
      var v: int := DigitsValue(t[1..]);
      Some(if t[0] == '-' then -v else v)
    else if AllDigits(t) then Some(DigitsValue(t))
    else None
  }

  /** A digit string reads as the number it spells, with a leading '-'
      negated and a leading '+' ignored. */
  lemma SignedDigitsValue(s: string)
    ensures s != [] && AllDigits(s) ==> ToWholeNumber(s) == Some(DigitsValue(s))
    ensures |s| > 1 && s[0] == '-' && AllDigits(s[1..]) ==> ToWholeNumber(s) == Some(-(DigitsValue(s[1..]) as int))
    ensures |s| > 1 && s[0] == '+' && AllDigits(s[1..]) ==> ToWholeNumber(s) == Some(DigitsValue(s[1..]))
  {
    if s != [] && AllDigits(s) {
      UnsignedValue(s);
    }
    if |s| > 1 && (s[0] == '-' || s[0] == '+') && AllDigits(s[1..]) {
      SignedValue(s);
    }
  }

  lemma UnsignedValue(s: string)
    requires s != [] && AllDigits(s)
    ensures ToWholeNumber(s) == Some(DigitsValue(s))
  {
    assert IsDigit(s[0]) && IsDigit(s[|s| - 1]);
    assert Trim(s) == s;
  }

  lemma SignedValue(s: string)
    requires |s| > 1 && (s[0] == '-' || s[0] == '+') && AllDigits(s[1..])
    ensures ToWholeNumber(s) == Some(if s[0] == '-' then -(DigitsValue(s[1..]) as int) else DigitsValue(s[1..]))
  {
    assert IsDigit(s[|s| - 1]);
    assert Trim(s) == s;
  }

  function DigitChar(d: nat): (c: char)
    requires d < 10
    ensures IsDigit(c) && DigitValue(c) == d
  {
    ('0' as int + d) as char
  }

  /** The shortest decimal spelling of a natural number. */
  function Digits(n: nat): (s: string)
    ensures |s| > 0 && AllDigits(s)
  {
    if n < 10 then [DigitChar(n)] else Digits(n / 10) + [DigitChar(n % 10)]
  }

  /** The decimal spelling of an integer, with a leading '-' when negative:
      what a number input holds when a whole number is typed into it. */
  function DecimalString(n: int): string
  {
    if n < 0 then "-" + Digits(-n) else Digits(n)
  }

  lemma {:induction false} DigitsRoundTrip(n: nat)
    ensures DigitsValue(Digits(n)) == n
  {
    if n >= 10 {
      var s := Digits(n);
      assert s[..|s| - 1] == Digits(n / 10);
      DigitsRoundTrip(n / 10);
    }
  }

  /** Reading back the decimal spelling of any integer gives that integer. */
  lemma DecimalRoundTrip(n: int)
    ensures ToWholeNumber(DecimalString(n)) == Some(n)
  {
    var s := DecimalString(n);
    var m: nat := if n < 0 then -n else n;
    DigitsRoundTrip(m);
    if n < 0 {
      assert s[1..] == Digits(m);
      SignedValue(s);
    } else {
      UnsignedValue(s);
    }
  }
}
