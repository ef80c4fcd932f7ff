/** Python's conversions between `int` and decimal text: `int(s)` on a string
    and `str(n)` / f"{n}" on an integer.

    `int(s)` accepts surrounding whitespace, an optional `+` or `-` and one or
    more ASCII digits (leading zeros allowed). Not modelled: underscores between
    digits (`"1_000"`), non-ASCII decimal digits and whitespace outside the
    ASCII range, which the model rejects where Python accepts them; and the
    4300-digit limit of Python 3.11 and later, above which Python raises and
    the model still reads the number. */
module PyInt {
  import opened Wrappers

  predicate IsDigit(c: char) { '0' <= c <= '9' }

  /** The ASCII whitespace `int()` skips around the number: space, tab, line
      feed, vertical tab, form feed and carriage return. The separators
      U+001C to U+001F count as whitespace for `str.isspace()`, but `int()`
      does not skip them and rejects text that contains them. */
  predicate IsSpace(c: char) { c == ' ' || '\t' <= c <= '\r' }

  predicate AllDigits(s: string) { forall i :: 0 <= i < |s| ==> IsDigit(s[i]) }

  predicate AllSpace(s: string) { forall i :: 0 <= i < |s| ==> IsSpace(s[i]) }

  /** Digit text without superfluous leading zeros, as `str` produces it. */
  predicate Canonical(s: string) { |s| >= 1 && AllDigits(s) && (s[0] == '0' ==> |s| == 1) }

  function DigitChar(d: nat): (c: char)
    requires d < 10
    ensures IsDigit(c)
  {
    ('0' as int + d) as char
  }

  function DigitValue(c: char): (d: nat)
    requires IsDigit(c)
    ensures d < 10 && DigitChar(d) == c
  {
    c as int - '0' as int
  }

  /** `str(n)` for a non-negative `n`. */
  function DecimalString(n: nat): (s: string)
    ensures Canonical(s)
    decreases n
  {
    if n < 10 then [DigitChar(n)] else DecimalString(n / 10) + [DigitChar(n % 10)]
  }

  /** `str(n)` for any integer `n`. */
  function IntToString(n: int): (s: string)
  {
    if n < 0 then "-" + DecimalString(-n) else DecimalString(n)
  }

  /** The number a string of decimal digits denotes. */
  function DigitsValue(s: string): (n: nat)
    requires AllDigits(s)
    decreases |s|
  {
    if s == [] then 0 else DigitsValue(s[..|s| - 1]) * 10 + DigitValue(s[|s| - 1])
  }

  function TrimStart(s: string): (r: string)
    ensures |r| <= |s| && r == s[|s| - |r|..]
    ensures r == [] || !IsSpace(r[0])
  {
    if s != [] && IsSpace(s[0]) then TrimStart(s[1..]) else s
  }

  function TrimEnd(s: string): (r: string)
    ensures |r| <= |s| && r == s[..|r|]
    ensures r == [] || !IsSpace(r[|r| - 1])
  {
    if s != [] && IsSpace(s[|s| - 1]) then TrimEnd(s[..|s| - 1]) else s
  }

  /** `s.strip()` restricted to the whitespace above. */
  function Strip(s: string): (r: string)
  {
    TrimEnd(TrimStart(s))
  }

  /** `int(s)`: `None` where Python raises `ValueError`. */
  function ParseInt(s: string): (r: Option<int>)
  {
    ParseSigned(Strip(s))
  }

  /** An optional sign followed by one or more digits, nothing else. */
  function ParseSigned(t: string): (r: Option<int>)
  {
    if |t| > 0 && (t[0] == '+' || t[0] == '-') then
      var magnitude := ParseDigits(t[1..]);
      if magnitude.None? then None
      else if t[0] == '-' then Some(-magnitude.value)
      else magnitude
    else
      ParseDigits(t)
  }

  function ParseDigits(d: string): (r: Option<int>)
  {
    if |d| > 0 && AllDigits(d) then Some(DigitsValue(d)) else None
  }

  /** `str` is a left inverse of reading digits back. */
  lemma {:induction false} DigitsValueOfDecimal(n: nat)
    ensures DigitsValue(DecimalString(n)) == n
    decreases n
  {
    if n >= 10 {
      var s := DecimalString(n);
      assert s[..|s| - 1] == DecimalString(n / 10);
      DigitsValueOfDecimal(n / 10);
    }
  }

  lemma {:induction false} LeadingDigitPositive(s: string)
    requires AllDigits(s) && |s| >= 1 && s[0] != '0'
    ensures DigitsValue(s) >= 1
    decreases |s|
  {
    if |s| > 1 {
      LeadingDigitPositive(s[..|s| - 1]);
    }
  }

  /** Canonical digit text is exactly what `str` prints for its value. */
  lemma {:induction false} DecimalOfDigitsValue(s: string)
    requires Canonical(s)
    ensures DecimalString(DigitsValue(s)) == s
    decreases |s|
  {
    if |s| > 1 {
      var p := s[..|s| - 1];
      LeadingDigitPositive(p);
      DecimalOfDigitsValue(p);
      assert s == p + [s[|s| - 1]];
    }
  }

  /** `int(str(n)) == n` for every integer. */
  lemma ParseIntOfString(n: int)
    ensures ParseInt(IntToString(n)) == Some(n)
  {
    if n < 0 {
      var m: nat := -n;
      assert IntToString(n) == "-" + DecimalString(m);
      ParseNegative(m);
    } else {
      assert IntToString(n) == DecimalString(n);
      ParseNonNegative(n);
    }
  }

  lemma ParseNonNegative(m: nat)
    ensures ParseInt(DecimalString(m)) == Some(m)
  {
    var d := DecimalString(m);
    assert IsDigit(d[0]) && IsDigit(d[|d| - 1]);
    calc {
      ParseInt(d);
      { StripUnpadded(d); }
      ParseSigned(d);
      ParseDigits(d);
      { DigitsValueOfDecimal(m); }
      Some(m);
    }
  }

  lemma ParseNegative(m: nat)
    requires m > 0
    ensures ParseInt("-" + DecimalString(m)) == Some(-(m as int))
  {
    var d := DecimalString(m);
    var s := "-" + d;
    DigitsValueOfDecimal(m);
    assert ParseDigits(d) == Some(m);
    assert s[1..] == d && s[|s| - 1] == d[|d| - 1];
    assert IsDigit(d[|d| - 1]);
    StripUnpadded(s);
  }

  /** `int` also reads `str(n)` back when whitespace surrounds it. */
  lemma ParseIntPadded(before: string, n: int, after: string)
    requires AllSpace(before) && AllSpace(after)
    ensures ParseInt(before + IntToString(n) + after) == Some(n)
  {
    var x := IntToString(n);
    assert x[0] == '-' || IsDigit(x[0]);
    TrimStartPrefix(before, x + after);
    assert before + x + after == before + (x + after);
    TrimEndSuffix(x, after);
    ParseIntOfString(n);
    StripUnpadded(x);
  }

  /** Text that starts with one of the separators U+001C to U+001F is not an
      integer: `int()` does not skip them as it skips whitespace. */
  lemma ParseIntRejectsSeparator(c: char, rest: string)
    requires '\U{1C}' <= c <= '\U{1F}'
    ensures ParseInt([c] + rest) == None
  {
    var s := [c] + rest;
    assert TrimStart(s) == s;
    var t := TrimEnd(s);
    assert |t| > 0 && t[0] == c by {
      if |t| == 0 { TrimEndAll(s); }
    }
  }

  /** Trimming the end removes only whitespace. */
  lemma {:induction false} TrimEndAll(s: string)
    requires TrimEnd(s) == []
    ensures AllSpace(s)
    decreases |s|
  {
    if s != [] {
      TrimEndAll(s[..|s| - 1]);
      assert forall i :: 0 <= i < |s| - 1 ==> s[i] == s[..|s| - 1][i];
    }
  }

  /** Text without a single ASCII digit is never an integer. */
  lemma ParseIntNeedsDigit(s: string)
    requires forall i :: 0 <= i < |s| ==> !IsDigit(s[i])
    ensures ParseInt(s) == None
  {
    var u := TrimStart(s);
    var t := TrimEnd(u);
    assert forall i :: 0 <= i < |t| ==> t[i] == s[|s| - |u| + i];
    if |t| > 0 && (t[0] == '+' || t[0] == '-') {
      assert |t| > 1 ==> !IsDigit(t[1..][0]);
    } else {
      assert |t| > 0 ==> !IsDigit(t[0]);
    }
  }

  lemma StripUnpadded(s: string)
    requires s != [] && !IsSpace(s[0]) && !IsSpace(s[|s| - 1])
    ensures Strip(s) == s
  {
    assert TrimStart(s) == s;
  }

  lemma {:induction false} TrimStartPrefix(pad: string, rest: string)
    requires AllSpace(pad)
    requires rest != [] && !IsSpace(rest[0])
    ensures TrimStart(pad + rest) == rest
    decreases |pad|
  {
    if pad == [] {
      assert pad + rest == rest;
    } else {
      var s := pad + rest;
      assert s[0] == pad[0] && IsSpace(s[0]);
      assert s[1..] == pad[1..] + rest;
      calc {
        TrimStart(s);
        TrimStart(s[1..]);
        { TrimStartPrefix(pad[1..], rest); }
        rest;
      }
    }
  }

  lemma {:induction false} TrimEndSuffix(rest: string, pad: string)
    requires AllSpace(pad)
    requires rest != [] && !IsSpace(rest[|rest| - 1])
    ensures TrimEnd(rest + pad) == rest
    decreases |pad|
  {
    if pad == [] {
      assert rest + pad == rest;
    } else {
      assert (rest + pad)[..|rest + pad| - 1] == rest + pad[..|pad| - 1];
      TrimEndSuffix(rest, pad[..|pad| - 1]);
    }
  }
}
