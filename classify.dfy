/**
 * Telling from a puzzle's title which newspaper it comes from and on which
 * day it ran (src/puzzle.rs).
 *
 * A title is recognised by the anchored patterns `^NY Times, (.*)$` and
 * `^LA Times, (.*)$`: it starts with the ten-character prefix, and the
 * capture group, whose `.` stops at a line feed, must reach the end of the
 * title. The captured remainder is read as a date, first in the short
 * format and, when that fails, in the long one.
 */
module Classify {
  import opened Wrappers
  import opened Schema
  import opened Dates

  datatype PuzzleSource = NewYorkTimes | LosAngelesTimes

  /** The literal text of `NYT_REGEX` and `LAT_REGEX` before the capture group. */
  const NytPrefix: string := "NY Times, "
  const LatPrefix: string := "LA Times, "

  function Prefix(source: PuzzleSource): string {
    match source
    case NewYorkTimes => NytPrefix
    case LosAngelesTimes => LatPrefix
  }

  // ---------------------------------------------------------------------
  // The two patterns
  // ---------------------------------------------------------------------

  /** Group 1 of `^<prefix>(.*)$` matched against `title`, if the pattern matches. */
  function Capture(prefix: string, title: string): (r: Option<string>)
    ensures r.Some? ==> title == prefix + r.value && '\n' !in r.value
  {
    if prefix <= title && '\n' !in title[|prefix|..] then Some(title[|prefix|..]) else None
  }

  /** `is_match`: the pattern matches exactly when it captures. */
  predicate IsMatch(prefix: string, title: string) {
    Capture(prefix, title).Some?
  }

  /** The pattern captures any one-line text that follows its prefix, and only that text. */
  lemma CaptureOf(prefix: string, rest: string)
    requires '\n' !in rest
    ensures Capture(prefix, prefix + rest) == Some(rest)
  {
    assert (prefix + rest)[|prefix|..] == rest;
  }

  /** No title matches both patterns: the prefixes differ in their first letter. */
  lemma PrefixesExclusive(title: string)
    ensures !(IsMatch(NytPrefix, title) && IsMatch(LatPrefix, title))
  {
    if IsMatch(NytPrefix, title) {
      assert title[0] == NytPrefix[0] == 'N';
    }
  }

  // ---------------------------------------------------------------------
  // puzzle_source
  // ---------------------------------------------------------------------

  /** `puzzle_source`: the New York Times pattern is tried first, then the Los Angeles Times one. */
  function PuzzleSourceOf(puzzle: Puzzle): (r: Option<PuzzleSource>)
    ensures r.Some? ==> IsMatch(Prefix(r.value), puzzle.Title())
    ensures r.None? <==> !IsMatch(NytPrefix, puzzle.Title()) && !IsMatch(LatPrefix, puzzle.Title())
  {
    if IsMatch(NytPrefix, puzzle.Title()) then Some(NewYorkTimes)
    else if IsMatch(LatPrefix, puzzle.Title()) then Some(LosAngelesTimes)
    else None
  }

  /**
   * Since at most one pattern matches, the order in which they are tried does
   * not matter: a source is detected exactly when its own pattern matches.
   */
  lemma SourceIffMatch(puzzle: Puzzle, source: PuzzleSource)
    ensures PuzzleSourceOf(puzzle) == Some(source) <==> IsMatch(Prefix(source), puzzle.Title())
  {
    PrefixesExclusive(puzzle.Title());
  }

  // ---------------------------------------------------------------------
  // puzzle_date
  // ---------------------------------------------------------------------

  /** The short format first; the long format only when the short one fails. */
  function ParseDatePart(text: string): (r: Option<Date>)
    ensures r.Some? ==> ValidDate(r.value)
    ensures r.None? <==> Parse(Short, text).None? && Parse(Long, text).None?
    ensures Parse(Short, text).Some? ==> r == Parse(Short, text)
  {
    match Parse(Short, text)
    case Some(d) => Some(d)
    case None => Parse(Long, text)
  }

  /**
   * The long format reads every date the short one does, and reads it the same,
   * so the fallback order never changes the outcome: the long format alone decides.
   */
  lemma ParseDatePartIsLong(text: string)
    ensures ParseDatePart(text) == Parse(Long, text)
  {
    match Parse(Short, text)
    case Some(d) =>
      LongAcceptsShort(text);
    case None =>
  }

  /** `puzzle_date`: the date in the remainder of a title that matches the source's pattern. */
  function PuzzleDate(puzzle: Puzzle, source: PuzzleSource): (r: Option<Date>)
    ensures r.Some? ==> ValidDate(r.value)
    ensures !IsMatch(Prefix(source), puzzle.Title()) ==> r.None?
    ensures IsMatch(Prefix(source), puzzle.Title()) ==>
      r == ParseDatePart(puzzle.Title()[|Prefix(source)|..])
  {
    match source
    case NewYorkTimes =>
      var datePart :- Capture(NytPrefix, puzzle.Title());
      ParseDatePart(datePart)
    case LosAngelesTimes =>
      var datePart :- Capture(LatPrefix, puzzle.Title());
      ParseDatePart(datePart)
  }

  /**
   * Both sources read the date the same way: the result depends only on the
   * text after the prefix, not on the source or on anything else in the puzzle.
   */
  lemma SameRemainderSameDate(p: Puzzle, s: PuzzleSource, q: Puzzle, t: PuzzleSource, rest: string)
    requires '\n' !in rest
    requires p.Title() == Prefix(s) + rest && q.Title() == Prefix(t) + rest
    ensures PuzzleDate(p, s) == PuzzleDate(q, t) == ParseDatePart(rest)
  {
    CaptureOf(Prefix(s), rest);
    CaptureOf(Prefix(t), rest);
  }

  /** A title made of a prefix and a formatted date is classified under that source and that date. */
  lemma FormattedTitle(puzzle: Puzzle, source: PuzzleSource, format: DateFormat, d: Date)
    requires ValidDate(d) && 0 <= d.year <= 9999
    requires puzzle.Title() == Prefix(source) + Format(format, d)
    ensures PuzzleSourceOf(puzzle) == Some(source)
    ensures PuzzleDate(puzzle, source) == Some(d)
  {
    var text := Format(format, d);
    FormatOneLine(format, d);
    CaptureOf(Prefix(source), text);
    SourceIffMatch(puzzle, source);
    ParseFormat(format, d);
    ParseDatePartIsLong(text);
    if format == Short {
      LongAcceptsShort(text);
    }
  }

  // ---------------------------------------------------------------------
  // The unit tests of src/puzzle.rs
  // ---------------------------------------------------------------------

  /** `make_puzzle`: a puzzle with the given title, an empty grid and fixed other fields. */
  function TestPuzzle(title: string): (p: Puzzle)
    ensures p.Title() == title && p.content.grid == []
  {
    Puzzle("123abc", PuzzleContent(PuzzleInfo("Daily Puzzle", title, "Auth Thor", "Description of the puzzle"), []))
  }

  /** The day of both tests, a Wednesday. */
  lemma TestDay()
    ensures ValidDate(Date(2023, 8, 30)) && Weekday(Date(2023, 8, 30)) == 3
  {
  }

  /** The names and numbers the formats write for that day. */
  lemma TestNames()
    ensures WeekdayName(Short, 3) == "Wed" && MonthName(Short, 7) == "Aug"
    ensures WeekdayName(Long, 3) == "Wednesday" && MonthName(Long, 7) == "August"
  {
  }

  lemma TestNumbers()
    ensures PaddedDay(30) == "30" && FourDigits(2023) == "2023"
  {
  }

  /** The day of both tests, in the short format. */
  lemma TestShortText()
    ensures ValidDate(Date(2023, 8, 30))
    ensures Format(Short, Date(2023, 8, 30)) == "Wed, Aug 30, 2023"
  {
    TestDay();
    TestNames();
    TestNumbers();
  }

  /** The day of both tests, in the long format. */
  lemma TestLongText()
    ensures ValidDate(Date(2023, 8, 30))
    ensures Format(Long, Date(2023, 8, 30)) == "Wednesday, August 30, 2023"
  {
    TestDay();
    TestNames();
    TestNumbers();
  }

  /** The two test titles, split after the prefix. */
  lemma LatTestTitle()
    ensures "LA Times, Wed, Aug 30, 2023" == LatPrefix + "Wed, Aug 30, 2023"
  {
  }

  lemma NytTestTitle()
    ensures "NY Times, Wednesday, August 30, 2023" == NytPrefix + "Wednesday, August 30, 2023"
  {
  }

  /** `parses_lat_date`: the short format, under the Los Angeles Times prefix. */
  lemma ParsesLatDate(puzzle: Puzzle)
    requires puzzle == TestPuzzle("LA Times, Wed, Aug 30, 2023")
    ensures PuzzleSourceOf(puzzle) == Some(LosAngelesTimes)
    ensures PuzzleDate(puzzle, LosAngelesTimes) == Some(Date(2023, 8, 30))
  {
    TestShortText();
    LatTestTitle();
    FormattedTitle(puzzle, LosAngelesTimes, Short, Date(2023, 8, 30));
  }

  /** `parses_nyt_date`: the long format, under the New York Times prefix. */
  lemma ParsesNytDate(puzzle: Puzzle)
    requires puzzle == TestPuzzle("NY Times, Wednesday, August 30, 2023")
    ensures PuzzleSourceOf(puzzle) == Some(NewYorkTimes)
    ensures PuzzleDate(puzzle, NewYorkTimes) == Some(Date(2023, 8, 30))
  {
    TestLongText();
    NytTestTitle();
    FormattedTitle(puzzle, NewYorkTimes, Long, Date(2023, 8, 30));
  }

  /**
   * A title that matches a source's pattern but whose remainder neither format
   * reads has that source and no date, so it is classified to nothing.
   */
  lemma UnparseableDate(p: Puzzle, s: PuzzleSource, rest: string)
    requires Capture(Prefix(s), p.Title()) == Some(rest)
    requires Parse(Short, rest).None? && Parse(Long, rest).None?
    ensures PuzzleSourceOf(p) == Some(s)
    ensures PuzzleDate(p, s).None?
  {
    SourceIffMatch(p, s);
  }

  /** A title under neither prefix has no source. */
  lemma UnknownSource(p: Puzzle)
    requires !IsMatch(NytPrefix, p.Title()) && !IsMatch(LatPrefix, p.Title())
    ensures PuzzleSourceOf(p).None?
    ensures forall s: PuzzleSource :: PuzzleDate(p, s).None?
  {
    forall s: PuzzleSource ensures PuzzleDate(p, s).None? {
      assert !IsMatch(Prefix(s), p.Title());
    }
  }

  /** "NY Times, not-a-date": the prefix is there, but no weekday name starts the rest. */
  lemma NotADateExample()
    ensures PuzzleSourceOf(TestPuzzle("NY Times, not-a-date")) == Some(NewYorkTimes)
    ensures PuzzleDate(TestPuzzle("NY Times, not-a-date"), NewYorkTimes) == None
  {
    var rest := "not-a-date";
    CaptureOf(NytPrefix, rest);
    assert NytPrefix + rest == "NY Times, not-a-date";
    assert rest[..3] == "not" && "not" !in ShortWeekdays;
    NoWeekdayNoDate(Short, rest);
    NoWeekdayNoDate(Long, rest);
    UnparseableDate(TestPuzzle("NY Times, not-a-date"), NewYorkTimes, rest);
  }

  /** "WSJ, Wed, Aug 30, 2023": a date in the short format, under neither prefix. */
  lemma OtherPaperExample()
    ensures PuzzleSourceOf(TestPuzzle("WSJ, Wed, Aug 30, 2023")).None?
  {
    var title := "WSJ, Wed, Aug 30, 2023";
    assert title[0] != NytPrefix[0] && title[0] != LatPrefix[0];
    UnknownSource(TestPuzzle(title));
  }
}
