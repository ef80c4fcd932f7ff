/** The week-over-week rank-change indicator of one box-office entry. */
module RankChange {
  import opened Wrappers
  import opened PyInt

  /** The flag value that marks a film new to the chart. */
  const NewFlag: string := "NEW"
  const NewEntryMarker: string := "🆕 NEW"
  const UpMark: char := '▲'
  const DownMark: char := '▼'
  const NoChangeMarker: string := "-"

  /** The indicator for a rank delta given as text and a new-entry flag. A delta
      that `int` cannot read gives the empty indicator rather than an error. */
  function FormatRankChange(rankInten: string, rankOldAndNew: string): (r: string)
  {
    if rankOldAndNew == NewFlag then NewEntryMarker else Indicator(ParseInt(rankInten))
  }

  /** The indicator for a delta that has been read (or not) as an integer. */
  function Indicator(delta: Option<int>): (r: string)
  {
    match delta
    case None => ""
    case Some(inten) =>
      if inten > 0 then [UpMark] + IntToString(inten)
      else if inten < 0 then [DownMark] + IntToString(-inten)
      else NoChangeMarker
  }

  /** The five kinds of indicator and exactly when each is produced: the
      new-entry marker for a new film whatever its delta, nothing for an
      unreadable delta, the no-change mark for zero, and an arrow giving the
      direction followed by the magnitude in canonical digits. */
  lemma RankChangeCases(rankInten: string, rankOldAndNew: string)
    ensures var r := FormatRankChange(rankInten, rankOldAndNew);
      && (r == NewEntryMarker <==> rankOldAndNew == NewFlag)
      && (r == "" <==> rankOldAndNew != NewFlag && ParseInt(rankInten).None?)
      && (r == NoChangeMarker <==> rankOldAndNew != NewFlag && ParseInt(rankInten) == Some(0))
      && ((|r| > 0 && r[0] == UpMark) <==>
          rankOldAndNew != NewFlag && ParseInt(rankInten).Some? && ParseInt(rankInten).value > 0)
      && ((|r| > 0 && r[0] == DownMark) <==>
          rankOldAndNew != NewFlag && ParseInt(rankInten).Some? && ParseInt(rankInten).value < 0)
      && (|r| > 0 && (r[0] == UpMark || r[0] == DownMark) ==> Canonical(r[1..]) && r[1..] != "0")
  {
    assert NewEntryMarker[0] == '🆕';
    IndicatorCases(ParseInt(rankInten));
  }

  lemma IndicatorCases(delta: Option<int>)
    ensures var r := Indicator(delta);
      && (r == "" <==> delta.None?)
      && (r == NoChangeMarker <==> delta == Some(0))
      && ((|r| > 0 && r[0] == UpMark) <==> delta.Some? && delta.value > 0)
      && ((|r| > 0 && r[0] == DownMark) <==> delta.Some? && delta.value < 0)
      && (|r| > 0 && (r[0] == UpMark || r[0] == DownMark) ==> Canonical(r[1..]) && r[1..] != "0")
      && (|r| > 0 ==> r[0] != NewEntryMarker[0])
  {
    match delta
    case None =>
    case Some(n) =>
      if n > 0 {
        assert ([UpMark] + IntToString(n))[1..] == DecimalString(n);
      } else if n < 0 {
        assert ([DownMark] + IntToString(-n))[1..] == DecimalString(-n);
      }
  }

  /** Reads a movement indicator back as a signed rank delta. */
  function ReadIndicator(s: string): (delta: Option<int>)
  {
    if s == NoChangeMarker then Some(0)
    else if |s| > 1 && (s[0] == UpMark || s[0] == DownMark) && Canonical(s[1..]) then
      var n: int := DigitsValue(s[1..]);
      Some(if s[0] == UpMark then n else -n)
    else None
  }

  /** Apart from new entries, the indicator records the parsed delta exactly:
      its sign in the arrow and its magnitude in the digits, and an unreadable
      delta gives an indicator that reads as nothing. */
  lemma RankChangeReadBack(rankInten: string, rankOldAndNew: string)
    requires rankOldAndNew != NewFlag
    ensures ReadIndicator(FormatRankChange(rankInten, rankOldAndNew)) == ParseInt(rankInten)
  {
    match ParseInt(rankInten)
    case None =>
    case Some(n) =>
      if n > 0 {
        ReadArrow(UpMark, n);
      } else if n < 0 {
        ReadArrow(DownMark, -n);
      }
  }

  lemma ReadArrow(arrow: char, n: nat)
    requires arrow == UpMark || arrow == DownMark
    requires n > 0
    ensures ReadIndicator([arrow] + IntToString(n)) == Some(if arrow == UpMark then n else -(n as int))
  {
    var r := [arrow] + DecimalString(n);
    assert r[1..] == DecimalString(n);
    assert r != NoChangeMarker;
    DigitsValueOfDecimal(n);
  }

  /** The new-entry marker does not depend on the delta, readable or not. */
  lemma NewEntryIgnoresDelta(rankInten: string)
    ensures FormatRankChange(rankInten, NewFlag) == NewEntryMarker
    ensures ReadIndicator(NewEntryMarker) == None
  {
  }

  /** The characters an indicator can contain: those of the new-entry marker,
      the two arrows, the no-change mark and the decimal digits. */
  predicate IndicatorChar(c: char)
  {
    c == '🆕' || c == ' ' || c == 'N' || c == 'E' || c == 'W'
    || c == UpMark || c == DownMark || c == '-' || IsDigit(c)
  }

  /** Whatever the delta and the flag, the indicator is made of those
      characters only. */
  lemma RankChangeChars(rankInten: string, rankOldAndNew: string)
    ensures var r := FormatRankChange(rankInten, rankOldAndNew);
      forall i :: 0 <= i < |r| ==> IndicatorChar(r[i])
  {
    if rankOldAndNew == NewFlag {
      assert NewEntryMarker == ['🆕', ' ', 'N', 'E', 'W'];
    } else {
      IndicatorChars(ParseInt(rankInten));
    }
  }

  lemma IndicatorChars(delta: Option<int>)
    ensures var r := Indicator(delta); forall i :: 0 <= i < |r| ==> IndicatorChar(r[i])
  {
    if delta.Some? && delta.value != 0 {
      var inten := delta.value;
      var digits := DecimalString(if inten > 0 then inten else -inten);
      ArrowChars(if inten > 0 then UpMark else DownMark, digits);
    }
  }

  lemma ArrowChars(arrow: char, digits: string)
    requires arrow == UpMark || arrow == DownMark
    requires AllDigits(digits)
    ensures var r := [arrow] + digits; forall i :: 0 <= i < |r| ==> IndicatorChar(r[i])
  {
    var r := [arrow] + digits;
    assert forall i :: 0 < i < |r| ==> r[i] == digits[i - 1];
  }

  /** A delta that reads as a positive `n` shows as a rise by `str(n)`. */
  lemma ArrowUp(rankInten: string, rankOldAndNew: string, n: nat)
    requires rankOldAndNew != NewFlag && n > 0 && ParseInt(rankInten) == Some(n)
    ensures FormatRankChange(rankInten, rankOldAndNew) == [UpMark] + IntToString(n)
  {
  }

  /** A delta that reads as `-n` shows as a fall by `str(n)`: the minus sign
      becomes the down arrow. */
  lemma ArrowDown(rankInten: string, rankOldAndNew: string, n: nat)
    requires rankOldAndNew != NewFlag && n > 0 && ParseInt(rankInten) == Some(-(n as int))
    ensures FormatRankChange(rankInten, rankOldAndNew) == [DownMark] + IntToString(n)
  {
  }

  /** A delta that reads as zero shows the no-change mark. */
  lemma NoChange(rankInten: string, rankOldAndNew: string)
    requires rankOldAndNew != NewFlag && ParseInt(rankInten) == Some(0)
    ensures FormatRankChange(rankInten, rankOldAndNew) == NoChangeMarker
  {
  }

  /** A delta of 0 shows as no change. */
  lemma RankChangeZeroExample()
    ensures FormatRankChange("0", "OLD") == "-"
  {
    assert DecimalString(0) == "0";
    ParseNonNegative(0);
    NoChange("0", "OLD");
  }

  /** A delta that is not a number shows nothing, unless the film is new. */
  lemma RankChangeUnreadableExample()
    ensures FormatRankChange("n/a", "OLD") == ""
    ensures FormatRankChange("n/a", "NEW") == "🆕 NEW"
  {
    ParseIntNeedsDigit("n/a");
  }
}
