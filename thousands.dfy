/** Python's thousands-separator format `f"{n:,}"`: the decimal digits of an
    integer with a comma before every full group of three, counted from the
    right, and a leading `-` for a negative number. */
module Thousands {
  import opened PyInt
  import opened Text

  /** Commas inserted into a run of digits, three digits per group from the right. */
  function Group(d: string): (g: string)
    decreases |d|
  {
    if |d| <= 3 then d else Group(d[..|d| - 3]) + "," + d[|d| - 3..]
  }

  /** `f"{n:,}"`. */
  function FormatThousands(n: int): (s: string)
  {
    if n < 0 then "-" + Group(DecimalString(-n)) else Group(DecimalString(n))
  }

  /** `s.replace(",", "")`. */
  function RemoveCommas(s: string): (r: string)
    ensures ',' !in r
    decreases |s|
  {
    if s == [] then ""
    else if s[|s| - 1] == ',' then RemoveCommas(s[..|s| - 1])
    else RemoveCommas(s[..|s| - 1]) + [s[|s| - 1]]
  }

  /** The pieces between commas: a leading group of one to three characters,
      then groups of exactly three. */
  predicate ThousandsGroups(parts: seq<string>)
  {
    && |parts| >= 1
    && 1 <= |parts[0]| <= 3
    && (forall k :: 1 <= k < |parts| ==> |parts[k]| == 3)
    && (forall k :: 0 <= k < |parts| ==> AllDigits(parts[k]))
  }

  lemma {:induction false} RemoveCommasConcat(a: string, b: string)
    ensures RemoveCommas(a + b) == RemoveCommas(a) + RemoveCommas(b)
    decreases |b|
  {
    if b == [] {
      assert a + b == a;
    } else {
      var b' := b[..|b| - 1];
      assert (a + b)[..|a + b| - 1] == a + b';
      RemoveCommasConcat(a, b');
    }
  }

  lemma {:induction false} RemoveCommasNone(s: string)
    requires ',' !in s
    ensures RemoveCommas(s) == s
    decreases |s|
  {
    if s != [] {
      RemoveCommasNone(s[..|s| - 1]);
    }
  }

  /** Removing the commas gives the digits back. */
  lemma {:induction false} RemoveCommasGroup(d: string)
    requires AllDigits(d)
    ensures RemoveCommas(Group(d)) == d
    decreases |d|
  {
    assert ',' !in d;
    if |d| <= 3 {
      RemoveCommasNone(d);
    } else {
      var p, t := d[..|d| - 3], d[|d| - 3..];
      assert ',' !in t;
      RemoveCommasGroup(p);
      RemoveCommasConcat(Group(p) + ",", t);
      RemoveCommasConcat(Group(p), ",");
      RemoveCommasNone(t);
      assert p + t == d;
    }
  }

  /** Splitting the grouped text at its commas gives well-formed groups whose
      concatenation is the digit text. */
  lemma GroupParts(d: string)
    requires |d| >= 1 && AllDigits(d)
    ensures ThousandsGroups(Split(Group(d), ','))
    ensures Concat(Split(Group(d), ',')) == d
  {
    GroupShape(d);
    GroupConcat(d);
  }

  lemma {:induction false} GroupShape(d: string)
    requires |d| >= 1 && AllDigits(d)
    ensures ThousandsGroups(Split(Group(d), ','))
    decreases |d|
  {
    if |d| <= 3 {
      GroupPartsShort(d);
    } else {
      var p, t := d[..|d| - 3], d[|d| - 3..];
      assert AllDigits(p) && AllDigits(t);
      GroupShape(p);
      SplitGroupStep(d);
      ThousandsGroupsSnoc(Split(Group(p), ','), t);
    }
  }

  lemma {:induction false} GroupConcat(d: string)
    requires |d| >= 1 && AllDigits(d)
    ensures Concat(Split(Group(d), ',')) == d
    decreases |d|
  {
    if |d| <= 3 {
      GroupPartsShort(d);
    } else {
      var p, t := d[..|d| - 3], d[|d| - 3..];
      assert AllDigits(p) && AllDigits(t);
      calc {
        Concat(Split(Group(d), ','));
        { SplitGroupStep(d); }
        Concat(Split(Group(p), ',') + [t]);
        { ConcatSnoc(Split(Group(p), ','), t); }
        Concat(Split(Group(p), ',')) + t;
        { GroupConcat(p); }
        p + t;
        d;
      }
    }
  }

  lemma GroupPartsShort(d: string)
    requires 1 <= |d| <= 3 && AllDigits(d)
    ensures Split(Group(d), ',') == [d]
    ensures ThousandsGroups([d]) && Concat([d]) == d
  {
    assert ',' !in d;
    SplitNoSeparator(d, ',');
    assert Concat([d]) == Concat([]) + d;
  }

  lemma SplitGroupStep(d: string)
    requires |d| > 3 && AllDigits(d[|d| - 3..])
    ensures Split(Group(d), ',') == Split(Group(d[..|d| - 3]), ',') + [d[|d| - 3..]]
  {
    var p, t := d[..|d| - 3], d[|d| - 3..];
    assert ',' !in t;
    assert Group(d) == Group(p) + [','] + t;
    SplitConcat(Group(p), t, ',');
    SplitNoSeparator(t, ',');
  }

  lemma ThousandsGroupsSnoc(parts: seq<string>, t: string)
    requires ThousandsGroups(parts) && |t| == 3 && AllDigits(t)
    ensures ThousandsGroups(parts + [t])
  {
    var ps := parts + [t];
    assert forall k :: 0 <= k < |parts| ==> ps[k] == parts[k];
  }

  /** `f"{n:,}".replace(",", "") == str(n)`. */
  lemma ThousandsRoundTrip(n: int)
    ensures RemoveCommas(FormatThousands(n)) == IntToString(n)
  {
    if n < 0 {
      RemoveCommasGroup(DecimalString(-n));
      RemoveCommasConcat("-", Group(DecimalString(-n)));
      RemoveCommasNone("-");
    } else {
      RemoveCommasGroup(DecimalString(n));
    }
  }

  /** After an optional `-`, `f"{n:,}"` is made of comma-separated groups: the
      first of one to three digits, every later one of exactly three, together
      spelling `str(abs(n))`. */
  lemma ThousandsShape(n: int)
    ensures var s := FormatThousands(n);
      var digits := if n < 0 then s[1..] else s;
      && (n < 0 <==> s[0] == '-')
      && ThousandsGroups(Split(digits, ','))
      && Concat(Split(digits, ',')) == DecimalString(if n < 0 then -n else n)
  {
    var m := if n < 0 then -n else n;
    var g := Group(DecimalString(m));
    GroupParts(DecimalString(m));
    var parts := Split(g, ',');
    assert IsDigit(parts[0][0]);
    assert |parts[0]| <= |g| && g[..|parts[0]|] == parts[0] by {
      if ',' in g { var i := IndexOf(g, ','); assert parts[0] == g[..i]; }
    }
    if n < 0 {
      assert ("-" + g)[1..] == g;
    }
  }

  predicate DigitsAndCommas(s: string) { forall i :: 0 <= i < |s| ==> IsDigit(s[i]) || s[i] == ',' }

  /** Grouping only inserts commas: every character of the result is a digit
      of the run or a comma. */
  lemma {:induction false} GroupChars(d: string)
    requires AllDigits(d)
    ensures DigitsAndCommas(Group(d))
    decreases |d|
  {
    if |d| > 3 {
      var p, t := Group(d[..|d| - 3]), d[|d| - 3..];
      GroupChars(d[..|d| - 3]);
      var g := Group(d);
      assert g == p + "," + t;
      forall i | 0 <= i < |g|
        ensures IsDigit(g[i]) || g[i] == ','
      {
        if i < |p| {
          assert g[i] == p[i];
          assert IsDigit(p[i]) || p[i] == ',';
        } else if i == |p| {
          assert g[i] == ',';
        } else {
          assert g[i] == t[i - |p| - 1] == d[|d| - 3 + (i - |p| - 1)];
        }
      }
    }
  }

  /** `f"{n:,}"` is made of digits and commas, behind a `-` exactly when `n` is
      negative. */
  lemma FormatThousandsChars(n: int)
    ensures var s := FormatThousands(n);
      if n < 0 then |s| > 0 && s[0] == '-' && DigitsAndCommas(s[1..]) else DigitsAndCommas(s)
  {
    var m := if n < 0 then -n else n;
    var g := Group(DecimalString(m));
    GroupChars(DecimalString(m));
    if n < 0 {
      var s := "-" + g;
      assert FormatThousands(n) == s;
      assert s[1..] == g;
    } else {
      assert FormatThousands(n) == g;
    }
  }

  /** The example the report shows: 1234567 gives "1,234,567". */
  lemma ThousandsExample()
    ensures FormatThousands(1234567) == "1,234,567"
  {
    DecimalExample();
    GroupExample();
  }

  lemma DecimalExample()
    ensures DecimalString(1234567) == "1234567"
  {
    assert DecimalString(1) == "1";
    assert DecimalString(12) == "1" + "2";
    assert DecimalString(123) == "12" + "3";
    assert DecimalString(1234) == "123" + "4";
    assert DecimalString(12345) == "1234" + "5";
    assert DecimalString(123456) == "12345" + "6";
    assert DecimalString(1234567) == "123456" + "7";
  }

  lemma GroupExample()
    ensures Group("1234567") == "1,234,567"
  {
    var d := "1234567";
    assert d[..4] == "1234" && d[4..] == "567";
    assert "1234"[..1] == "1" && "1234"[1..] == "234";
    assert Group("1") == "1";
    assert Group("1234") == "1" + "," + "234";
    assert Group(d) == "1,234" + "," + "567";
  }
}
