/** The report formatter (`update_readme` up to the write): one table row per
    movie, accumulated in order, embedded with a fixed two-line table header in
    a fixed document template. */
module Readme {
  import opened Wrappers
  import opened Text
  import opened BoxOfficeClient
  import opened PyInt
  import opened Thousands
  import opened RankChange

  /** The column titles: rank, change, title, release date, cumulative
      attendance, sales share. */
  const HeaderTitles: string :=
    "|" + " 순위 " + "|" + " 변동 " + "|" + " 영화명 " + "|" + " 개봉일 " + "|" + " 누적 관객수 " + "|" + " 매출 점유율 " + "|"
  const HeaderRule: string := "|------|-------|--------|" + "--------|-------------|--------------|"
  const TableHeader: string := HeaderTitles + "\n" + HeaderRule + "\n"

  const Intro: string := "KOBIS API 기반으로 자동 업데이트된 " + "**주간 박스오피스 TOP 10**입니다.  "
  const SectionTitle: string := "## 📊 박스오피스 순위"
  const Attribution: string := "✅ 데이터 출처: " + "[KOBIS 영화관입장권통합전산망]" + "(https://www.kobis.or.kr)"

  /** The document's heading line. */
  function Heading(boxofficeType: string, showRange: string): (line: string)
  {
    "# 🎬 " + boxofficeType + " (" + showRange + ")"
  }

  /** The line stating the period the figures cover. */
  function Basis(showRange: string): (line: string)
  {
    "(기준: " + showRange + ")"
  }

  /** One table row without its newline. */
  function RowLine(m: Movie): (line: string)
  {
    "| " + m.rank + " | " + m.rankChange + " | " + m.name + " | "
    + m.openDate + " | " + m.audiAcc + " | " + m.salesShare + " |"
  }

  /** The row lines of a list of movies, in order. */
  function RowLines(movies: seq<Movie>): (lines: seq<string>)
    ensures |lines| == |movies|
  {
    seq(|movies|, i requires 0 <= i < |movies| => RowLine(movies[i]))
  }

  /** `table_rows` after the loop has processed `movies`. */
  function Rows(movies: seq<Movie>): (tableRows: string)
  {
    if movies == [] then ""
    else Rows(movies[..|movies| - 1]) + RowLine(movies[|movies| - 1]) + "\n"
  }

  /** The template's lines above the table. */
  function PreambleLines(boxofficeType: string, showRange: string): (lines: seq<string>)
  {
    [
      "",
      Heading(boxofficeType, showRange),
      "",
      Intro,
      Basis(showRange),
      "",
      "---",
      "",
      SectionTitle,
      ""
    ]
  }

  /** The template's lines below the table. */
  const ClosingLines: seq<string> := ["", "", "---", "", Attribution]

  /** `readme_content`: the template filled in, line by line. */
  function ReadmeContent(boxofficeType: string, showRange: string, tableRows: string): (content: string)
  {
    JoinLines(PreambleLines(boxofficeType, showRange)) + TableHeader + tableRows + JoinLines(ClosingLines)
  }

  predicate NoNewline(s: string) { '\n' !in s }

  /** No field of the movie spans a line break. */
  predicate SingleLineFields(m: Movie)
  {
    && NoNewline(m.rank) && NoNewline(m.rankChange) && NoNewline(m.name)
    && NoNewline(m.openDate) && NoNewline(m.audiAcc) && NoNewline(m.salesShare)
  }

  /** The four fields of a raw entry that reach the table as they are
      (rank, title, opening date, sales share) contain no line break. */
  predicate SingleLineText(m: RawMovie)
  {
    NoNewline(m.rank) && NoNewline(m.movieNm) && NoNewline(m.openDt) && NoNewline(m.salesShare)
  }

  /** The four fields of a raw entry that reach the table as they are
      contain no bar. */
  predicate BarFreeText(m: RawMovie)
  {
    '|' !in m.rank && '|' !in m.movieNm && '|' !in m.openDt && '|' !in m.salesShare
  }

  /** The rank-change indicator never contains a line break or a bar: it is
      built from fixed marks and digits. */
  lemma IndicatorPlain(rankInten: string, rankOldAndNew: string)
    ensures NoNewline(FormatRankChange(rankInten, rankOldAndNew))
    ensures '|' !in FormatRankChange(rankInten, rankOldAndNew)
  {
    RankChangeChars(rankInten, rankOldAndNew);
  }

  /** The grouped attendance never contains a line break or a bar. */
  lemma AttendancePlain(n: int)
    ensures NoNewline(FormatThousands(n)) && '|' !in FormatThousands(n)
  {
    var s := FormatThousands(n);
    FormatThousandsChars(n);
    if n < 0 {
      assert s == [s[0]] + s[1..];
    }
  }

  /** The two computed fields of a normalised entry contain neither. */
  lemma ComputedFieldsPlain(m: RawMovie)
    requires NormaliseMovie(m).Some?
    ensures var v := NormaliseMovie(m).value;
      && NoNewline(v.rankChange) && NoNewline(v.audiAcc)
      && '|' !in v.rankChange && '|' !in v.audiAcc
  {
    IndicatorPlain(m.rankInten, m.rankOldAndNew);
    AttendancePlain(ParseInt(m.audiAcc).value);
  }

  /** A normalised entry is single-line exactly when the four copied fields of
      its raw entry are: the computed fields never break a line. */
  lemma NormalisedSingleLine(m: RawMovie)
    requires NormaliseMovie(m).Some?
    ensures SingleLineFields(NormaliseMovie(m).value) <==> SingleLineText(m)
  {
    var v := NormaliseMovie(m).value;
    ComputedFieldsPlain(m);
    assert v.salesShare == m.salesShare + "%";
  }

  /** A normalised entry's row splits into its six cells when the four copied
      fields of its raw entry contain no bar. */
  lemma NormalisedCells(m: RawMovie)
    requires NormaliseMovie(m).Some? && BarFreeText(m)
    ensures var v := NormaliseMovie(m).value;
      Split(RowLine(v), '|') == ["", " " + v.rank + " ", " " + v.rankChange + " ", " " + v.name + " ",
        " " + v.openDate + " ", " " + v.audiAcc + " ", " " + v.salesShare + " ", ""]
  {
    var v := NormaliseMovie(m).value;
    ComputedFieldsPlain(m);
    assert v.salesShare == m.salesShare + "%";
    RowCells(v);
  }

  /** For a response that converts, the document's line structure holds
      whenever the two labels and the copied fields of every entry are
      single-line: `number of entries + 18` pieces, the entries' rows at
      pieces 12 onwards in response order. */
  lemma ResponseLines(result: BoxOfficeResult)
    requires NoNewline(result.boxofficeType) && NoNewline(result.showRange)
    requires forall i :: 0 <= i < |result.weeklyBoxOfficeList| ==> SingleLineText(result.weeklyBoxOfficeList[i])
    requires NormaliseAll(result.weeklyBoxOfficeList).Ok?
    ensures var ms := result.weeklyBoxOfficeList;
      var movies := NormaliseAll(ms).value;
      var lines := Split(ReadmeContent(result.boxofficeType, result.showRange, Rows(movies)), '\n');
      && |lines| == |ms| + 18
      && forall i :: 0 <= i < |ms| ==> lines[12 + i] == RowLine(movies[i]) && NormaliseMovie(ms[i]) == Some(movies[i])
  {
    var ms := result.weeklyBoxOfficeList;
    NormaliseAllSpec(ms);
    var movies := NormaliseAll(ms).value;
    forall i | 0 <= i < |movies|
      ensures SingleLineFields(movies[i])
    {
      NormalisedSingleLine(ms[i]);
    }
    ReadmeLines(result.boxofficeType, result.showRange, movies);
    var lines := Split(ReadmeContent(result.boxofficeType, result.showRange, Rows(movies)), '\n');
    forall i | 0 <= i < |ms|
      ensures lines[12 + i] == RowLine(movies[i])
    {
      assert lines[12 + i] == lines[12..12 + |movies|][i];
    }
  }

  /** The loop of `update_readme` that accumulates `table_rows`: one row per
      movie, appended in list order. */
  method BuildTableRows(movies: seq<Movie>) returns (tableRows: string)
    ensures tableRows == Rows(movies)
    ensures (forall i :: 0 <= i < |movies| ==> SingleLineFields(movies[i])) ==>
      Split(tableRows, '\n') == RowLines(movies) + [""]
  {
    tableRows := "";
    for i := 0 to |movies|
      invariant tableRows == Rows(movies[..i])
    {
      assert movies[..i + 1][..i] == movies[..i];
      var movie := movies[i];
      tableRows := tableRows + RowLine(movie) + "\n";
    }
    assert movies[..|movies|] == movies;
    if forall i :: 0 <= i < |movies| ==> SingleLineFields(movies[i]) {
      assert tableRows + "" == tableRows;
      SplitRows(movies, "");
      SplitNoSeparator("", '\n');
    }
  }

  /** `update_readme` without the file write: nothing when the client returned
      nothing, the client's error when normalisation failed, and otherwise the
      document filled in with the block's labels and one row per movie. */
  method UpdateReadme(response: Response) returns (r: Result<Option<string>, Error>)
    ensures response.statusCode != StatusOk ==> r == Ok(None)
    ensures response.statusCode == StatusOk ==>
      var result := response.boxOfficeResult;
      match NormaliseAll(result.weeklyBoxOfficeList)
      case Err(e) => r == Err(e)
      case Ok(movies) => r == Ok(Some(ReadmeContent(result.boxofficeType, result.showRange, Rows(movies))))
  {
    var info := GetMovieInfo(response);
    match info {
      case Err(e) =>
        r := Err(e);
      case Ok(None) =>
        r := Ok(None);
      case Ok(Some(movieInfo)) =>
        var tableRows := BuildTableRows(movieInfo.movies);
        r := Ok(Some(ReadmeContent(movieInfo.boxofficeType, movieInfo.showRange, tableRows)));
    }
  }

  /** The accumulated rows are newline-terminated lines, one per movie, in order. */
  lemma {:induction false} SplitRows(movies: seq<Movie>, rest: string)
    requires forall i :: 0 <= i < |movies| ==> SingleLineFields(movies[i])
    ensures Split(Rows(movies) + rest, '\n') == RowLines(movies) + Split(rest, '\n')
    decreases |movies|
  {
    if movies == [] {
      assert Rows(movies) + rest == rest;
    } else {
      var init := movies[..|movies| - 1];
      var line := RowLine(movies[|movies| - 1]);
      RowsSnoc(movies, rest);
      SplitRows(init, line + "\n" + rest);
      assert SingleLineFields(movies[|movies| - 1]);
      RowLineSingle(movies[|movies| - 1]);
      SplitStep(Rows(init), RowLines(init), line, rest);
      RowLinesSnoc(movies);
    }
  }

  /** One more line in front of the rest: the inductive step of `SplitRows`
      over plain variables. */
  lemma SplitStep(prefix: string, prefixLines: seq<string>, line: string, rest: string)
    requires NoNewline(line)
    requires Split(prefix + (line + "\n" + rest), '\n') == prefixLines + Split(line + "\n" + rest, '\n')
    ensures Split(prefix + (line + "\n" + rest), '\n') == prefixLines + [line] + Split(rest, '\n')
  {
    SplitAfterPiece(line, rest, '\n');
  }

  lemma RowLineSingle(m: Movie)
    requires SingleLineFields(m)
    ensures NoNewline(RowLine(m))
  {
  }

  lemma RowsSnoc(movies: seq<Movie>, rest: string)
    requires movies != []
    ensures Rows(movies) + rest == Rows(movies[..|movies| - 1]) + (RowLine(movies[|movies| - 1]) + "\n" + rest)
  {
    var a, b := Rows(movies[..|movies| - 1]), RowLine(movies[|movies| - 1]);
    assert Rows(movies) == a + b + "\n";
    Regroup3(a, b, rest);
  }

  lemma Regroup3(a: string, b: string, rest: string)
    ensures a + b + "\n" + rest == a + (b + "\n" + rest)
  {
  }

  lemma RowLinesSnoc(movies: seq<Movie>)
    requires movies != []
    ensures RowLines(movies) == RowLines(movies[..|movies| - 1]) + [RowLine(movies[|movies| - 1])]
  {
  }

  /** Every row splits at its bars into the six padded fields, in column
      order, as the header splits into the six column titles. */
  lemma RowCells(m: Movie)
    requires '|' !in m.rank && '|' !in m.rankChange && '|' !in m.name
    requires '|' !in m.openDate && '|' !in m.audiAcc && '|' !in m.salesShare
    ensures Split(RowLine(m), '|') == ["", " " + m.rank + " ", " " + m.rankChange + " ", " " + m.name + " ",
      " " + m.openDate + " ", " " + m.audiAcc + " ", " " + m.salesShare + " ", ""]
    ensures Split(HeaderTitles, '|') == ["", " 순위 ", " 변동 ", " 영화명 ", " 개봉일 ", " 누적 관객수 ", " 매출 점유율 ", ""]
  {
    RowLineAsCells(m);
    SplitSixCells(" " + m.rank + " ", " " + m.rankChange + " ", " " + m.name + " ",
      " " + m.openDate + " ", " " + m.audiAcc + " ", " " + m.salesShare + " ");
    SplitSixCells(" 순위 ", " 변동 ", " 영화명 ", " 개봉일 ", " 누적 관객수 ", " 매출 점유율 ");
  }

  lemma RowLineAsCells(m: Movie)
    ensures RowLine(m) == "|" + (" " + m.rank + " ") + "|" + (" " + m.rankChange + " ") + "|" + (" " + m.name + " ")
      + "|" + (" " + m.openDate + " ") + "|" + (" " + m.audiAcc + " ") + "|" + (" " + m.salesShare + " ") + "|"
  {
  }

  lemma SplitSixCells(a: string, b: string, c: string, d: string, e: string, f: string)
    requires '|' !in a && '|' !in b && '|' !in c && '|' !in d && '|' !in e && '|' !in f
    ensures Split("|" + a + "|" + b + "|" + c + "|" + d + "|" + e + "|" + f + "|", '|') == ["", a, b, c, d, e, f, ""]
  {
    var s1 := "|" + a;
    var s2 := s1 + "|" + b;
    var s3 := s2 + "|" + c;
    var s4 := s3 + "|" + d;
    var s5 := s4 + "|" + e;
    var s6 := s5 + "|" + f;
    calc {
      Split(s6 + "|", '|');
      { assert s6 + "|" == s6 + ['|'] + ""; SplitBeforePiece(s6, "", '|'); }
      Split(s6, '|') + [""];
      { SplitBeforePiece(s5, f, '|'); }
      Split(s5, '|') + [f] + [""];
      { SplitBeforePiece(s4, e, '|'); }
      Split(s4, '|') + [e] + [f] + [""];
      { SplitBeforePiece(s3, d, '|'); }
      Split(s3, '|') + [d] + [e] + [f] + [""];
      { SplitBeforePiece(s2, c, '|'); }
      Split(s2, '|') + [c] + [d] + [e] + [f] + [""];
      { SplitBeforePiece(s1, b, '|'); }
      Split(s1, '|') + [b] + [c] + [d] + [e] + [f] + [""];
      { assert s1 == "" + ['|'] + a; SplitBeforePiece("", a, '|'); SplitNoSeparator("", '|'); }
      [""] + [a] + [b] + [c] + [d] + [e] + [f] + [""];
    }
  }

  /** The document splits into the template's lines, the two header lines,
      one line per movie and the closing lines, with nothing after the last
      newline. */
  lemma ReadmeSplit(boxofficeType: string, showRange: string, movies: seq<Movie>)
    requires NoNewline(boxofficeType) && NoNewline(showRange)
    requires forall i :: 0 <= i < |movies| ==> SingleLineFields(movies[i])
    ensures Split(ReadmeContent(boxofficeType, showRange, Rows(movies)), '\n')
      == PreambleLines(boxofficeType, showRange) + [HeaderTitles, HeaderRule] + RowLines(movies) + ClosingLines + [""]
  {
    TemplateSingleLines(boxofficeType, showRange);
    SplitDocument(PreambleLines(boxofficeType, showRange), HeaderTitles, HeaderRule, movies, ClosingLines);
  }

  lemma TemplateSingleLines(boxofficeType: string, showRange: string)
    requires NoNewline(boxofficeType) && NoNewline(showRange)
    ensures forall i :: 0 <= i < 10 ==> NoNewline(PreambleLines(boxofficeType, showRange)[i])
    ensures forall i :: 0 <= i < |ClosingLines| ==> NoNewline(ClosingLines[i])
    ensures NoNewline(HeaderTitles) && NoNewline(HeaderRule)
  {
    HeadingSingleLine(boxofficeType, showRange);
    ConstantsSingleLine();
  }

  lemma HeadingSingleLine(boxofficeType: string, showRange: string)
    requires NoNewline(boxofficeType) && NoNewline(showRange)
    ensures NoNewline(Heading(boxofficeType, showRange)) && NoNewline(Basis(showRange))
  {
  }

  lemma ConstantsSingleLine()
    ensures NoNewline(Intro) && NoNewline(SectionTitle) && NoNewline(Attribution)
    ensures NoNewline(HeaderTitles) && NoNewline(HeaderRule)
  {
    IntroSingleLine();
    SectionTitleSingleLine();
    AttributionSingleLine();
    HeaderTitlesSingleLine();
    HeaderRuleSingleLine();
  }

  // One lemma per template constant: each is checked with only its own
  // literal in view, which keeps these checks cheap for the solver.
  lemma IntroSingleLine() ensures NoNewline(Intro) {}
  lemma SectionTitleSingleLine() ensures NoNewline(SectionTitle) {}
  lemma AttributionSingleLine() ensures NoNewline(Attribution) {}
  lemma HeaderTitlesSingleLine() ensures NoNewline(HeaderTitles) {}
  lemma HeaderRuleSingleLine() ensures NoNewline(HeaderRule) {}

  /** Any document made of single-line text above the table, the two header
      lines, the rows and single-line text below splits into exactly those lines. */
  lemma SplitDocument(pre: seq<string>, titles: string, rule: string, movies: seq<Movie>, post: seq<string>)
    requires forall i :: 0 <= i < |pre| ==> NoNewline(pre[i])
    requires NoNewline(titles) && NoNewline(rule)
    requires forall i :: 0 <= i < |movies| ==> SingleLineFields(movies[i])
    requires forall i :: 0 <= i < |post| ==> NoNewline(post[i])
    ensures Split(JoinLines(pre) + (titles + "\n" + rule + "\n") + Rows(movies) + JoinLines(post), '\n')
      == pre + [titles, rule] + RowLines(movies) + post + [""]
  {
    var tail := Rows(movies) + (JoinLines(post) + "");
    var table := titles + ['\n'] + (rule + ['\n'] + tail);
    Regroup(JoinLines(pre), titles, rule, Rows(movies), JoinLines(post));
    calc {
      Split(JoinLines(pre) + table, '\n');
      { SplitJoinLines(pre, table); }
      pre + Split(table, '\n');
      { SplitAfterPiece(titles, rule + ['\n'] + tail, '\n'); }
      pre + ([titles] + Split(rule + ['\n'] + tail, '\n'));
      { SplitAfterPiece(rule, tail, '\n'); }
      pre + ([titles] + ([rule] + Split(tail, '\n')));
      { SplitRows(movies, JoinLines(post) + ""); }
      pre + ([titles] + ([rule] + (RowLines(movies) + Split(JoinLines(post) + "", '\n'))));
      { SplitJoinLines(post, ""); SplitNoSeparator("", '\n'); }
      pre + ([titles] + ([rule] + (RowLines(movies) + (post + [""]))));
      { RegroupLines(pre, titles, rule, RowLines(movies), post); }
      pre + [titles, rule] + RowLines(movies) + post + [""];
    }
  }

  // Regroup and RegroupLines restate associativity over plain variables, so
  // that the solver does not unfold the functions whose results they join.
  lemma Regroup(a: string, t: string, h: string, r: string, p: string)
    ensures a + (t + "\n" + h + "\n") + r + p == a + (t + ['\n'] + (h + ['\n'] + (r + (p + ""))))
  {
  }

  lemma RegroupLines(a: seq<string>, t: string, h: string, r: seq<string>, p: seq<string>)
    ensures a + ([t] + ([h] + (r + (p + [""])))) == a + [t, h] + r + p + [""]
  {
  }

  /** The pieces of the document split at newlines, counted from 0 (the last
      piece is the empty text after the final newline): the heading is piece 1
      and the period line piece 4; the two header lines are pieces 10 and 11,
      immediately followed by one piece per movie in list order, and then the
      fixed closing lines. */
  lemma ReadmeLines(boxofficeType: string, showRange: string, movies: seq<Movie>)
    requires NoNewline(boxofficeType) && NoNewline(showRange)
    requires forall i :: 0 <= i < |movies| ==> SingleLineFields(movies[i])
    ensures var lines := Split(ReadmeContent(boxofficeType, showRange, Rows(movies)), '\n');
      && |lines| == |movies| + 18
      && lines[0] == ""
      && lines[1] == Heading(boxofficeType, showRange)
      && lines[4] == Basis(showRange)
      && lines[10] == HeaderTitles
      && lines[11] == HeaderRule
      && lines[12..12 + |movies|] == RowLines(movies)
      && lines[12 + |movies|..] == ClosingLines + [""]
  {
    ReadmeSplit(boxofficeType, showRange, movies);
    var pre := PreambleLines(boxofficeType, showRange);
    LinesLayout(pre, HeaderTitles, HeaderRule, RowLines(movies), ClosingLines);
    PreambleShape(boxofficeType, showRange);
  }

  lemma PreambleShape(boxofficeType: string, showRange: string)
    ensures var pre := PreambleLines(boxofficeType, showRange);
      |pre| == 10 && pre[0] == "" && pre[1] == Heading(boxofficeType, showRange) && pre[4] == Basis(showRange)
  {
  }

  /** Where each part sits in the concatenated list of lines. */
  lemma LinesLayout(pre: seq<string>, titles: string, rule: string, rows: seq<string>, post: seq<string>)
    requires |pre| == 10 && |post| == 5
    ensures var lines := pre + [titles, rule] + rows + post + [""];
      && |lines| == |rows| + 18
      && lines[..10] == pre
      && lines[10] == titles
      && lines[11] == rule
      && lines[12..12 + |rows|] == rows
      && lines[12 + |rows|..] == post + [""]
  {
    var lines := pre + [titles, rule] + rows + post + [""];
    assert lines == (pre + [titles, rule]) + (rows + post + [""]);
    assert lines[12..] == rows + post + [""];
  }
}
