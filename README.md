# cw-data ingestion core in Dafny

This project models the ingestion core of `cw-data`, a service that collects
crossword puzzles from a paginated catalogue. It covers three steps:

- **Answers of a grid** (`src/schema.rs`). `Puzzle::answers` joins the cell
  strings of each row and splits the result on `'.'` into words, then does the
  same for each column. The columns are those of the first row. `words`
  drops the empty pieces of the split.
- **Classifying a title** (`src/puzzle.rs`). `puzzle_source` tells by the
  anchored patterns `^NY Times, (.*)$` and `^LA Times, (.*)$` which newspaper
  a puzzle comes from. The New York Times pattern is tried first.
  `puzzle_date` reads the text after the prefix as a date. It tries the short
  format `%a, %b %e, %Y` first and the long format `%A, %B %e, %Y` second.
- **Collecting the history** (`src/puzzle_loader.rs`).
  `PuzzleLoader::history_until` requests pages 0, 1, 2, … in turn. From each
  page it keeps the puzzles that have both a source and a date, and it stops
  once at least the wanted number is collected. The first failed request ends
  the run with that error.

Modules:

- `Wrappers` holds `Option` and `Result`.
- `Schema` holds the puzzle record, `words` and `answers`.
- `Dates` holds the calendar and an explicit parser and formatter for the two
  date formats, in place of chrono.
- `Classify` holds the two patterns, `puzzle_source`, `puzzle_date` and the
  module's unit tests.
- `Loader` holds the page loop.

Shape of the model:

- `answers()` is a method with the source's loops: the row pass and the
  column pass, each column built by pushing cells onto a string. It is proved
  equal to the function `GridAnswers`. The properties of `words` and of the
  answers are lemmas about `Words` and `GridAnswers`.
- The title functions are pure functions.
- The page loop is a method whose result is proved equal to `Fetched`. That
  function gives what pages `0 .. n-1` yield: their kept records in order, or
  the first failure.
- The HTTP client is a parameter `getPage`, a function from page number to the
  puzzles on that page or the failure.

## Model

| member | source | states |
|---|---|---|
| Schema.Segments | src/schema.rs:90 | `split('.')` always yields at least one piece |
| Schema.NonEmpty | src/schema.rs:91-97 | no contract of its own: the `filter_map` keeping the non-empty pieces in order; pinned by FlattenNonEmpty and NonEmptyWords |
| Schema.Words | src/schema.rs:89-99 | no contract of its own: the non-empty pieces of the split on `'.'`; pinned by WordsFlatten, WordsAreWords, WordsSingle and, through Segments, SegmentsJoin and SegmentsUnique |
| Schema.SegmentsJoin | src/schema.rs:90 | joining the pieces with `'.'` gives back the input, so splitting loses nothing |
| Schema.SegmentsUnique | src/schema.rs:90 | any list of dot-free pieces that joins to `s` is exactly the split of `s` |
| Schema.DotFreeSegments | src/schema.rs:90 | a string without `'.'` splits into itself alone |
| Schema.SegmentsDotFree | src/schema.rs:90 | no piece of the split contains `'.'` |
| Schema.FlattenNonEmpty | src/schema.rs:91-97 | dropping the empty pieces does not change their concatenation |
| Schema.FlattenSegments | src/schema.rs:90 | the pieces written one after another are the input with every `'.'` removed |
| Schema.WordsFlatten | src/schema.rs:89-99 | the words of `s`, concatenated in order, are `s` with every `'.'` removed |
| Schema.WordsSingle | src/schema.rs:90-98 | a dot-free `s` has the single word `s`, or no word when `s` is empty |
| Schema.NonEmptyWords | src/schema.rs:91-98 | from dot-free pieces the filter keeps only non-empty, dot-free strings |
| Schema.WordsAreWords | src/schema.rs:89-99 | no word of `s` is empty and none contains `'.'` |
| Schema.GridAnswers | src/schema.rs:67-73 | a grid without rows has no answers, since the column count defaults to 0 |
| Schema.Concat | src/schema.rs:59-62 | no contract of its own: the `fold` with `push_str`, the cells written one after another; used as the meaning of ColumnText and pinned by ConcatDotFree and SingleRowAcross |
| Schema.Answers | src/schema.rs:54-86 | returns the words of each row in order, then the words of each of the first row's columns in order; every row must be at least as long as the first, since a shorter one makes the indexing panic |
| Schema.RowPass | src/schema.rs:57-65 | the first loop yields the words of every row's joined cells, rows in order |
| Schema.ColumnPass | src/schema.rs:67-83 | the second loop appends the words of columns `0 .. len(grid[0])`, in order, to what it is given |
| Schema.ColumnText | src/schema.rs:76-80 | the inner loop builds the column's cells joined from top to bottom |
| Schema.ColumnPassIgnoresOverhang | src/schema.rs:67-78 | cutting every row to the first row's width leaves the column words unchanged |
| Schema.ConcatDotFree | src/schema.rs:59-62 | dot-free cells join to a dot-free string, and to a non-empty one when any cell is non-empty |
| Schema.RowWordsAreWords | src/schema.rs:57-65 | every row answer is non-empty and dot-free |
| Schema.ColumnWordsAreWords | src/schema.rs:75-83 | every column answer is non-empty and dot-free |
| Schema.GridAnswersAreWords | src/schema.rs:54-86 | every answer of a grid is non-empty and dot-free |
| Schema.SingleRowAcross | src/schema.rs:57-65 | one row of non-empty dot-free cells yields one row answer, the row's joined cells |
| Schema.SingleRowColumns | src/schema.rs:75-83 | with one such row, the column pass yields each cell in turn |
| Schema.SingleRowAnswers | src/schema.rs:57-83 | one row of non-empty dot-free cells yields its joined cells, then each cell |
| Dates.DaysInMonth | src/puzzle.rs:39 | every month has 28 to 31 days |
| Dates.Weekday | src/puzzle.rs:39 | the weekday of a valid date is in `0 .. 6` |
| Dates.NextDay | src/puzzle.rs:39 | the day after a valid date, except the last one representable, is a valid date and comes after it |
| Dates.WeekdayNext | src/puzzle.rs:39 | from each day to the next, across month ends, year ends and leap days, the weekday advances by one, so the weekday checked against the name read is the calendar's |
| Dates.CountStep | src/puzzle.rs:39 | from one day to the next the weekday sum grows by 1, or falls by 27 or 34 at a month's end |
| Dates.YearTerms | src/puzzle.rs:39 | the year terms of the weekday sum grow by 2 into a leap year and by 1 into any other year |
| Dates.Trim | src/puzzle.rs:7 | skipping white space (the characters with the Unicode White_Space property, as `trim_start` uses) leaves no longer a text, and one that does not start with white space |
| Dates.TrimExact | src/puzzle.rs:7 | `Trim` removes exactly the leading white space: the result is a suffix of `s`, and every character dropped is white space |
| Dates.IndexOf | src/puzzle.rs:7 | a found index names the token; none is found only when the token is not in the table |
| Dates.DropPrefix | src/puzzle.rs:10 | on success the text is the prefix followed by the remainder returned |
| Dates.ScanShortName | src/puzzle.rs:7 | `%a`/`%b` succeed only on a table name followed by the remainder returned |
| Dates.ScanShortOrLongName | src/puzzle.rs:10 | `%A`/`%B` read an index within the table and consume either its three-letter name or the name followed by its suffix |
| Dates.ScanWeekday | src/puzzle.rs:7-10 | a weekday read is in `0 .. 6` |
| Dates.ScanMonth | src/puzzle.rs:7-10 | a month read is in `0 .. 11` |
| Dates.ScanNumber | src/puzzle.rs:7 | a number read is not negative |
| Dates.ScanDay | src/puzzle.rs:7 | no contract of its own: `%e` as white space, then one or two digits; pinned by ScanDayText, ScanDayPadded and DayFollows |
| Dates.ScanYear | src/puzzle.rs:7 | no contract of its own: `%Y` as white space, then a sign and any number of digits, or one to four digits; pinned by ScanYearFour |
| Dates.ScanHead | src/puzzle.rs:7-10 | the weekday and month read are within their tables |
| Dates.ScanTail | src/puzzle.rs:7-10 | the day and the year keep the weekday and month read before them |
| Dates.ScanFields | src/puzzle.rs:7-10 | fields read have a weekday in `0 .. 6` and a month in `1 .. 12` |
| Dates.Resolve | src/puzzle.rs:39 | fields make a date exactly when the day exists and falls on the weekday read, and then it is that day |
| Dates.Parse | src/puzzle.rs:39-41 | a parsed date is a valid calendar date |
| Dates.NoWeekdayNoDate | src/puzzle.rs:39-41 | a text that does not start with a three-letter weekday name is no date in either format |
| Dates.IndexOfAt | src/puzzle.rs:7 | a name that does not occur earlier in the table is found at its own index |
| Dates.ScanShortNameAt | src/puzzle.rs:7 | a three-letter name followed by any text is read as its index, and the text is left |
| Dates.DropPrefixOf | src/puzzle.rs:10 | a text that starts with the prefix loses exactly the prefix |
| Dates.ScanWeekdayAt | src/puzzle.rs:7-10 | the name the format writes for a weekday is read back as that weekday, in either format |
| Dates.ScanMonthAt | src/puzzle.rs:7-10 | the name the format writes for a month is read back as that month, in either format |
| Dates.DigitRunOf | src/puzzle.rs:7 | a digit run followed by a non-digit, or filling the width, is counted whole |
| Dates.ScanNumberOf | src/puzzle.rs:7 | such a run of digits is read as the number it denotes, leaving the text after it |
| Dates.DayDigits | src/puzzle.rs:7 | the digits `%e` writes for a day denote that day |
| Dates.YearDigits | src/puzzle.rs:7 | the four digits written for a year in `0 .. 9999` denote that year |
| Dates.ScanDayText | src/puzzle.rs:7 | one or two spaces and then one or two digits are read as the day |
| Dates.ScanDayPadded | src/puzzle.rs:7 | the day `%e` writes, with the format's space before it, is read back as that day |
| Dates.ScanYearFour | src/puzzle.rs:7 | the year written as four digits is read back, with nothing left over |
| Dates.FormattedHead | src/puzzle.rs:7-10 | the written weekday, comma and month are read back as those values |
| Dates.FormattedTail | src/puzzle.rs:7-10 | the written day, comma and year are read back, and nothing is left over |
| Dates.ScanFormatted | src/puzzle.rs:7-10 | a formatted date's text is read into exactly its weekday, month, day and year |
| Dates.ParseFormat | src/puzzle.rs:7-10 | parsing what a format writes for a date gives the date back, in either format |
| Dates.ShortOrLongAgrees | src/puzzle.rs:7-10 | `%A` reads what `%a` reads when no lower-case letter follows the three-letter name |
| Dates.DayFollows | src/puzzle.rs:7 | whenever a day can be read, the text starts with white space or a digit |
| Dates.WeekdayLong | src/puzzle.rs:7-10 | when a comma follows the weekday, `%A` reads it as `%a` does |
| Dates.MonthLong | src/puzzle.rs:7-10 | when a day follows the month, `%B` reads it as `%b` does |
| Dates.HeadLong | src/puzzle.rs:7-10 | when a day follows, the long format reads the same weekday and month as the short one |
| Dates.ScanFieldsLong | src/puzzle.rs:7-10 | every text the short format reads into fields, the long format reads into the same fields |
| Dates.LongAcceptsShort | src/puzzle.rs:39-41 | every date the short format parses, the long format parses to the same date |
| Dates.FormatOneLine | src/puzzle.rs:7-10 | a formatted date contains no line feed |
| Classify.Capture | src/puzzle.rs:13-14 | a match means the title is the prefix followed by the captured text, which has no line feed |
| Classify.IsMatch | src/puzzle.rs:24-27 | no contract of its own: `is_match` holds exactly when the pattern captures; pinned by CaptureOf, PrefixesExclusive and SourceIffMatch |
| Classify.CaptureOf | src/puzzle.rs:13-14 | the prefix followed by any one-line text matches, and captures exactly that text |
| Classify.PrefixesExclusive | src/puzzle.rs:13-14 | no title matches both patterns |
| Classify.PuzzleSourceOf | src/puzzle.rs:23-31 | a source is returned only when its pattern matches; none is returned exactly when neither pattern matches |
| Classify.SourceIffMatch | src/puzzle.rs:23-31 | the source returned is `s` exactly when the title matches `s`'s pattern, so the order of the tests does not matter |
| Classify.ParseDatePart | src/puzzle.rs:38-41 | when the short format reads a date, that date is returned; the date found is valid; there is none exactly when both formats fail |
| Classify.ParseDatePartIsLong | src/puzzle.rs:39-41 | the short-then-long fallback always gives what the long format alone gives |
| Classify.PuzzleDate | src/puzzle.rs:33-52 | a date found is valid; there is none when the title does not match the source's pattern; otherwise it is the fallback parse of the text after the prefix |
| Classify.SameRemainderSameDate | src/puzzle.rs:33-52 | the date depends only on the text after the prefix, and both sources read it the same way |
| Classify.FormattedTitle | src/puzzle.rs:23-52 | a prefix followed by a date in either format is classified under that source and that date |
| Classify.TestPuzzle | src/schema.rs:117-137 | the test puzzle has the given title and an empty grid |
| Classify.TestShortText | src/puzzle.rs:61-66 | 2023-08-30 is a valid date, written "Wed, Aug 30, 2023" in the short format |
| Classify.TestLongText | src/puzzle.rs:72-77 | 2023-08-30 is written "Wednesday, August 30, 2023" in the long format |
| Classify.ParsesLatDate | src/puzzle.rs:59-68 | "LA Times, Wed, Aug 30, 2023" has the Los Angeles Times as source and 2023-08-30 as date |
| Classify.ParsesNytDate | src/puzzle.rs:70-79 | "NY Times, Wednesday, August 30, 2023" has the New York Times as source and 2023-08-30 as date |
| Classify.UnparseableDate | src/puzzle.rs:33-42 | a title that matches a source's pattern but whose remainder neither format reads has that source and no date |
| Classify.UnknownSource | src/puzzle.rs:23-31 | a title under neither prefix has no source, and no date under either source |
| Classify.NotADateExample | src/puzzle.rs:33-42 | the title "NY Times, not-a-date" has the New York Times as source and no date |
| Classify.OtherPaperExample | src/puzzle.rs:23-31 | the title "WSJ, Wed, Aug 30, 2023" has no source |
| Loader.ClassifyPuzzle | src/puzzle_loader.rs:29-43 | a kept record wraps the puzzle with its source and its date under that source; a puzzle is dropped exactly when it has no source or no date |
| Loader.ClassifyPage | src/puzzle_loader.rs:29-44 | no contract of its own: the page's `filter_map`, the records kept in page order; pinned by ClassifyPageClassified, ClassifyPageComplete, ClassifyPageAll, ClassifyPageShorter, ClassifyPageDrops and PushClassified |
| Loader.Fetched | src/puzzle_loader.rs:17-50 | no contract of its own: what pages `0 .. n-1` yield, the kept records in order or the first failure; the meaning CollectUntil and HistoryUntil are proved against, pinned by FetchedNext, FetchedGrows, FailureSticks, ErrorFromLastPage and FetchedClassified |
| Loader.UnreadableDateDropped | src/puzzle_loader.rs:31-41 | a puzzle whose title matches a source's pattern but whose remainder neither format reads yields no record |
| Loader.FetchedNext | src/puzzle_loader.rs:21-46 | one more page either appends its kept records or ends the run with that page's error |
| Loader.PushClassified | src/puzzle_loader.rs:29-44 | pushing a page's kept records extends the list by exactly the page's records, in order |
| Loader.CollectUntil | src/puzzle_loader.rs:17-50 | requests pages `0, 1, 2, …` in order and stops at the first page count after which a request has failed or the target is reached; returns what those pages yield |
| Loader.HistoryUntil | src/puzzle_loader.rs:17-50 | the same, with the closure of `history_until`. On success at least `history_count` records; on failure the error of the last page requested; no request when the count is 0 |
| Loader.ClassifyPageClassified | src/puzzle_loader.rs:29-44 | every record kept from a page is the one the closure makes for that record's own puzzle |
| Loader.ClassifyPageComplete | src/puzzle_loader.rs:29-44 | every puzzle the closure keeps is among the page's records |
| Loader.ClassifyPageAll | src/puzzle_loader.rs:29-44 | a page whose every puzzle is kept yields one record per puzzle |
| Loader.ClassifyPageShorter | src/puzzle_loader.rs:29-44 | a page never yields more records than it has puzzles |
| Loader.ClassifyPageDrops | src/puzzle_loader.rs:38-41 | a page with a dropped puzzle yields fewer records than it has puzzles |
| Loader.FetchedClassified | src/puzzle_loader.rs:29-44 | every record of a successful run is the one the closure makes for its own puzzle |
| Loader.FetchedGrows | src/puzzle_loader.rs:44 | records collected from earlier pages stay, in place, as later pages are added |
| Loader.FailureSticks | src/puzzle_loader.rs:23-27 | once a request fails, every longer run reports that same failure |
| Loader.ErrorFromLastPage | src/puzzle_loader.rs:23-27 | a run that fails right after good pages reports the error of its last page |
| Loader.FirstStopUnique | src/puzzle_loader.rs:21 | there is only one first page count at which the loop ends, so the result is determined |
| Loader.OneFullPage | src/puzzle_loader.rs:21-46 | when page 0 alone reaches the target, exactly one page is requested and all of its records are returned, with no cut at the target |
| Loader.HistoryRecords | src/puzzle_loader.rs:31-37 | every record returned carries the source `puzzle_source` finds and the date `puzzle_date` finds under it |

## Left out

- `src/client.rs` is not part of this model. The HTTP request, the JSON
  decoding and `async` are replaced by the parameter `getPage`. It is a
  deterministic, total function: asking for the same page twice gives the
  same answer, and every request returns. The source awaits each request with
  no timeout, so a request that never completes would block the run forever;
  that case is not modelled.
- `src/db.rs` (SQLite storage), `src/main.rs` (configuration, logging, the
  runtime) and the `Display` text of `src/error.rs` are not part of this
  model. `Error` has only the variant the loop produces.
- The serde attributes are left out. So are the unused record fields
  (`clues`, `circles`, `stats`, `private`) and the `PuzzleList` wrapper.
- `log::debug!` and `log::warn!` are left out.
- `Puzzle::title` and `Puzzle::id` (src/schema.rs:46-52) are plain accessors,
  modelled without a contract.
- The regular-expression engine is replaced by its meaning for these two
  patterns: the prefix, then a remainder without a line feed.
- chrono's parser is replaced by an explicit one for the two formats. Its one
  limit: names are matched case-sensitively. As in chrono, `%Y` takes one to
  four digits, or a sign and any number of digits, and years outside the range
  `NaiveDate` represents are rejected.
- Dates.ParseFormat: the round trip is proved only for years `0 .. 9999`,
  where `%Y` writes exactly four digits.
- Loader.HistoryUntil: it requires that some number of pages ends the run
  (enough records or a failure). The source loops forever otherwise, and
  that case is not modelled.
- Loader.CollectUntil: the loop is stated for any filter closure.
  `HistoryUntil` runs it with the closure of `history_until`.
- Schema.Answers: it requires every row to be at least as long as the first.
  The source panics on a shorter row, and the panic is not modelled.
- Text is modelled as sequences of characters, not as UTF-8 bytes.

Behaviour of the code worth knowing:

- only `'.'` separates words;
- an empty cell adds nothing, so the letters on either side of it join into
  one word;
- the column count is taken from the first row alone.
