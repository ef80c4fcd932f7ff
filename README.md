# Weekly box-office report: a Dafny model

`movie_api.py` fetches the weekly box-office chart from the KOBIS open API and
rewrites a README page with it. It has three parts:

- it turns each chart entry into a display record;
- it accumulates one Markdown table row per film;
- it embeds the table in a fixed Korean-language document template.

This project models that text processing in Dafny and proves what the script
promises about it. The network call, the clock, the configuration and the file
write are left out (see the end of this file).

Modules, one per file:

- `Wrappers` (`wrappers.dfy`): `Option` and `Result`.
- `Lists` (`lists.dfy`): `MapUntilNone`, a map that stops at the first element
  the mapping rejects. This is how a Python loop behaves when an exception
  escapes from it.
- `Text` (`text.dfy`): `Split` on a character, like Python's `str.split(c)`,
  and writing lines out one after another.
- `PyInt` (`py_int.dfy`): Python's `int(s)` on text, as `ParseInt`
  (`None` where Python raises `ValueError`), and `str(n)`.
- `Thousands` (`thousands.dfy`): Python's `f"{n:,}"`.
- `RankChange` (`rank_change.dfy`): `format_rank_change`.
- `BoxOfficeClient` (`movie_info.dfy`): `get_movie_info` after the HTTP
  request. It takes the decoded response, with the entry loop written as a
  method.
- `Readme` (`readme.dfy`): `update_readme` up to the file write. The row loop
  is a method, and the document is a function.

A conversion error escapes both `get_movie_info` and `update_readme`: it is the
`ValueError` that `int()` raises on a non-numeric cumulative attendance. The
model returns it as `Err(AudiAccNotInteger(index, text))`, naming the first
entry that failed. When the status code is not 200, `get_movie_info` returns
`None` and `update_readme` then writes nothing. The model returns `Ok(None)` in
both places.

## Model

| member | source | states |
|---|---|---|
| RankChange.RankChangeCases | movie_api.py:20-33 | Each result kind occurs exactly when the source's branch condition holds. The new-entry marker appears iff the flag is `"NEW"`. `""` appears iff the flag is not `"NEW"` and `int()` fails. `"-"` appears iff the delta reads as 0. A leading `▲`/`▼` appears iff it reads as positive/negative. After the arrow come canonical digits, never `"0"` and never a sign. |
| RankChange.IndicatorCases | movie_api.py:24-33 | The same case split for a delta that has already been read. No indicator for a read delta starts like the new-entry marker. |
| RankChange.RankChangeReadBack | movie_api.py:24-33 | Apart from new entries, the indicator loses nothing. Reading it back (`ReadIndicator`) gives exactly what `int(rank_inten)` gave, including "nothing" for an unreadable delta. |
| RankChange.NewEntryIgnoresDelta | movie_api.py:22-23 | For `"NEW"`, the marker does not depend on the delta, readable or not. The marker itself reads back as no delta. |
| RankChange.ArrowUp | movie_api.py:28-29 | A delta that reads as a positive `n` gives `▲` followed by `str(n)`. |
| RankChange.ArrowDown | movie_api.py:30-31 | A delta that reads as `-n` gives `▼` followed by `str(n)`. The sign becomes the arrow, via `abs`. |
| RankChange.NoChange | movie_api.py:32-33 | A delta that reads as zero gives the no-change mark `"-"`. |
| RankChange.RankChangeChars | movie_api.py:20-33 | Whatever the delta and the flag, every character of the indicator comes from the new-entry marker, the two arrows, the no-change mark or the decimal digits. |
| RankChange.RankChangeZeroExample | movie_api.py:32-33 | `"0"` gives the no-change mark `"-"`. |
| RankChange.RankChangeUnreadableExample | movie_api.py:22-27 | `"n/a"` gives `""` when the flag is `"OLD"` and the new-entry marker when it is `"NEW"`. Nothing is raised. |
| PyInt.DecimalString | movie_api.py:29-31 | `str(n)` of a natural number is canonical decimal text: ASCII digits without a superfluous leading zero. |
| PyInt.DigitsValueOfDecimal | movie_api.py:29-31 | The digits `str(n)` prints denote `n`. |
| PyInt.DecimalOfDigitsValue | movie_api.py:29-31 | Every canonical digit text is what `str` prints for its value, so `str` is a bijection onto canonical text. |
| PyInt.ParseIntOfString | movie_api.py:25 | `int(str(n)) == n` for every integer, negative ones included. |
| PyInt.ParseIntPadded | movie_api.py:25 | `int()` reads `str(n)` back when it is surrounded by the whitespace `int()` skips (space, tab, line feed, vertical tab, form feed, carriage return). |
| PyInt.ParseIntRejectsSeparator | movie_api.py:24-27 | Text that starts with one of the separators U+001C to U+001F is not an integer, so `format_rank_change` gives `""` for it. These separators are whitespace for `str.isspace()`, but `int()` does not skip them. |
| PyInt.ParseIntNeedsDigit | movie_api.py:24-27 | Within the modelled ASCII scope, text without an ASCII digit is never an integer. |
| Thousands.ThousandsRoundTrip | movie_api.py:54 | Removing the commas from `f"{n:,}"` gives `str(n)`. |
| Thousands.ThousandsShape | movie_api.py:54 | `f"{n:,}"` starts with `-` iff `n < 0`. The rest splits at commas into a first group of 1 to 3 digits and later groups of exactly 3. Those groups spell `str(abs(n))`. |
| Thousands.GroupParts | movie_api.py:54 | Grouping a run of digits gives well-formed groups whose concatenation is the run. |
| Thousands.GroupChars | movie_api.py:54 | Grouping a run of digits only inserts commas: every character of the result is a digit or a comma. |
| Thousands.FormatThousandsChars | movie_api.py:54 | `f"{n:,}"` is made of digits and commas, behind a `-` exactly when `n` is negative. |
| Thousands.ThousandsExample | movie_api.py:54 | `1234567` is shown as `"1,234,567"`. |
| BoxOfficeClient.NormaliseMovie | movie_api.py:49-56 | An entry converts iff `int(audiAcc)` succeeds. When it converts: `rank`, `movieNm` and `openDt` are copied verbatim; the change column is `format_rank_change` of the entry's fields; the attendance is `f"{n:,}"` of the parsed number `n` (`FormatThousands`, whose grouping `ThousandsShape` states), and with its commas removed it is `str(n)`; the sales share is the source text with exactly one `%` appended. |
| BoxOfficeClient.NormaliseAllSpec | movie_api.py:47-56 | The loop succeeds iff every entry converts. On success it keeps the count, and output entry `i` comes from input entry `i`. On failure the error names the first entry whose attendance does not convert, together with that entry's text. |
| BoxOfficeClient.BuildMovieList | movie_api.py:47-56 | The appending loop gives the list-level result above: same length, entry by entry, stopping at the first failure. |
| BoxOfficeClient.GetMovieInfo | movie_api.py:35-62 | A status other than 200 gives no result. Status 200 gives the block's `showRange` and `boxofficeType` with the normalised list, or the entry loop's error. |
| Readme.BuildTableRows | movie_api.py:78-83 | The `+=` loop produces one row per movie in list order. When no field contains a newline, the rows split into exactly the row lines plus an empty tail. |
| Readme.SplitRows | movie_api.py:78-83 | When no field of any movie contains a newline, the accumulated rows read back as exactly one line per movie, in order, whatever follows them. |
| Readme.RowCells | movie_api.py:73-83 | When no field contains a bar character, each row splits at its bars into the six space-padded fields in column order. The header title line splits the same way into the six column titles. |
| Readme.ReadmeSplit | movie_api.py:73-100 | When neither label nor any field of any movie contains a newline, the document splits into lines: the template lines above the table, the two header lines, one line per movie, the template lines below the table, and nothing after the last newline. |
| Readme.ReadmeLines | movie_api.py:73-100 | When neither label nor any field of any movie contains a newline, the document split at newlines gives `number of movies + 18` pieces, counted from 0. That is `number of movies + 17` newline-terminated lines and the empty piece after the final newline. Piece 1 is `# 🎬 {boxoffice_type} ({show_range})` and piece 4 is `(기준: {show_range})`. Pieces 10 and 11 are the six-column header, and the movies' rows follow immediately after it. |
| Readme.IndicatorPlain | movie_api.py:51 | The rank-change column never contains a newline or a bar, whatever the entry's delta and flag. |
| Readme.AttendancePlain | movie_api.py:54 | The attendance column `f"{n:,}"` never contains a newline or a bar. |
| Readme.ComputedFieldsPlain | movie_api.py:49-56 | In every converted entry, the two computed columns contain neither a newline nor a bar. |
| Readme.NormalisedSingleLine | movie_api.py:49-56 | A converted entry has no field with a newline exactly when its raw rank, title, opening date and sales share have none. Only those four raw texts can break a row. |
| Readme.NormalisedCells | movie_api.py:80-82 | When the raw rank, title, opening date and sales share of a converted entry contain no bar, its row splits at its bars into its six space-padded fields, in column order. |
| Readme.ResponseLines | movie_api.py:35-100 | For a response whose entries all convert, with single-line labels and single-line raw rank, title, opening date and sales share: the document has `number of entries + 18` pieces, and piece `12 + i` is the row of entry `i`, which is the normalised raw entry `i`. |
| Readme.UpdateReadme | movie_api.py:64-100 | Without a result nothing is produced. The conversion error propagates unchanged. Otherwise the result is the template filled in with the block's labels and the rows of the normalised movies. |

## Left out

- The HTTP request, and the message printed on a failed request (movie_api.py:36-39): network I/O and console output. `GetMovieInfo` takes the response as a value.
- JSON decoding (movie_api.py:41-45): the decoded response is a datatype with every field present, so a missing key, which raises `KeyError` in the script, cannot be expressed.
- The date computation from the wall clock, environment loading and URL construction (movie_api.py:4-17): clock and configuration.
- Writing README.md (movie_api.py:102-103): file I/O. `UpdateReadme` ends at the content string.
- The test `if not info` (movie_api.py:66-67) is modelled only for `None`. A dictionary with three keys is never falsy.
- PyInt.ParseInt: does not accept underscores between digits (`"1_000"`), non-ASCII decimal digits or non-ASCII whitespace. Python's `int()` accepts them and the model rejects them. It also reads numbers of any length. Python 3.11 and later raise `ValueError` above 4300 digits, a configurable limit; for such a delta `format_rank_change` gives `""`, and for such an attendance `get_movie_info` raises.
- movie_api.py builds a single six-column table and writes it to a single file, and the model does the same. There is no table without the rank-change column and no printing of the document.
