/**
 * The puzzle record fetched from the catalog and the extraction of its
 * answer words from the letter grid (src/schema.rs).
 *
 * A grid is a sequence of rows, each a sequence of cell strings. A cell is a
 * letter, the block marker "." or the empty string; only "." separates
 * words, so an empty cell contributes nothing and its neighbours merge.
 */
module Schema {

  type Grid = seq<seq<string>>

  datatype PuzzleInfo = PuzzleInfo(puzzleType: string, title: string, author: string, description: string)

  datatype PuzzleContent = PuzzleContent(info: PuzzleInfo, grid: Grid)

  datatype Puzzle = Puzzle(pid: string, content: PuzzleContent) {
    function Title(): string {
      content.info.title
    }

    function Id(): string {
      pid
    }
  }

  // ---------------------------------------------------------------------
  // words(): split on '.', drop the empty pieces
  // ---------------------------------------------------------------------

  /** The pieces `s.split('.')` yields, in order: one more than the number of dots. */
  function Segments(s: string): (r: seq<string>)
    ensures |r| >= 1
  {
    if s == [] then [""]
    else
      var rest := Segments(s[1..]);
      if s[0] == '.' then [""] + rest
      else [[s[0]] + rest[0]] + rest[1..]
  }

  /** The pieces glued back together with '.' between neighbours. */
  function JoinDots(pieces: seq<string>): string
    requires |pieces| >= 1
  {
    if |pieces| == 1 then pieces[0] else pieces[0] + "." + JoinDots(pieces[1..])
  }

  /** The `filter_map` step: keep the non-empty pieces, in order. */
  function NonEmpty(pieces: seq<string>): seq<string> {
    if pieces == [] then []
    else if pieces[0] == "" then NonEmpty(pieces[1..])
    else [pieces[0]] + NonEmpty(pieces[1..])
  }

  /** What every answer is: a non-empty run of cell text without the block marker. */
  predicate IsWord(w: string) {
    w != "" && '.' !in w
  }

  /** `words(s)` (src/schema.rs:89-99). */
  function Words(s: string): seq<string> {
    NonEmpty(Segments(s))
  }

  /** The strings of a list written one after another. */
  function Flatten(ws: seq<string>): string {
    if ws == [] then "" else ws[0] + Flatten(ws[1..])
  }

  /** `s` with every '.' deleted. */
  function RemoveDots(s: string): (r: string)
    ensures '.' !in r
  {
    if s == [] then ""
    else if s[0] == '.' then RemoveDots(s[1..])
    else [s[0]] + RemoveDots(s[1..])
  }

  /** Gluing a character onto the first piece glues it onto the joined text. */
  lemma JoinDotsCons(c: char, first: string, rest: seq<string>)
    ensures JoinDots([[c] + first] + rest) == [c] + JoinDots([first] + rest)
  {
    if rest != [] {
      assert ([[c] + first] + rest)[1..] == rest;
      assert ([first] + rest)[1..] == rest;
      AppendAssoc([c], first, "." + JoinDots(rest));
    }
  }

  lemma AppendAssoc(a: string, b: string, c: string)
    ensures (a + b) + c == a + (b + c)
  {
  }

  /** Joining the pieces with '.' gives back the input: `split` loses nothing. */
  lemma {:induction false} SegmentsJoin(s: string)
    ensures JoinDots(Segments(s)) == s
  {
    if s != [] {
      var rest := Segments(s[1..]);
      SegmentsJoin(s[1..]);
      assert s == [s[0]] + s[1..];
      if s[0] == '.' {
        assert Segments(s) == [""] + rest;
        assert ([""] + rest)[1..] == rest;
      } else {
        assert [rest[0]] + rest[1..] == rest;
        JoinDotsCons(s[0], rest[0], rest[1..]);
      }
    }
  }

  /**
   * The pieces are determined by the two facts above: any dot-free list that
   * joins to `s` is `Segments(s)`.
   */
  lemma {:induction false} SegmentsUnique(s: string, pieces: seq<string>)
    requires |pieces| >= 1
    requires forall i :: 0 <= i < |pieces| ==> '.' !in pieces[i]
    requires JoinDots(pieces) == s
    ensures pieces == Segments(s)
    decreases |s|
  {
    if |pieces| == 1 {
      DotFreeSegments(s);
    } else if pieces[0] == "" {
      var tail := pieces[1..];
      assert s == "." + JoinDots(tail);
      assert s[0] == '.' && s[1..] == JoinDots(tail);
      SegmentsUnique(s[1..], tail);
      assert pieces == [""] + tail;
    } else {
      var p0 := pieces[0];
      var tail := pieces[1..];
      assert p0[0] != '.' by { assert p0[0] in p0; }
      var shorter := [p0[1..]] + tail;
      assert shorter[1..] == tail;
      assert JoinDots(shorter) == p0[1..] + "." + JoinDots(tail);
      assert s == p0 + "." + JoinDots(tail);
      assert s[0] == p0[0];
      assert s[1..] == JoinDots(shorter);
      forall i | 0 <= i < |shorter|
        ensures '.' !in shorter[i]
      {
        if i == 0 {
          assert forall c :: c in p0[1..] ==> c in p0;
        } else {
          assert shorter[i] == pieces[i];
        }
      }
      SegmentsUnique(s[1..], shorter);
      var rest := Segments(s[1..]);
      assert rest == shorter;
      assert [p0[0]] + p0[1..] == p0;
      assert pieces == [p0] + tail;
    }
  }

  /** A string without '.' is a single piece. */
  lemma {:induction false} DotFreeSegments(s: string)
    requires '.' !in s
    ensures Segments(s) == [s]
  {
    if s != [] {
      assert '.' !in s[1..] by { assert forall c :: c in s[1..] ==> c in s; }
      DotFreeSegments(s[1..]);
      assert s[0] in s;
      assert [s[0]] + s[1..] == s;
    }
  }

  lemma {:induction false} FlattenNonEmpty(pieces: seq<string>)
    ensures Flatten(NonEmpty(pieces)) == Flatten(pieces)
  {
    if pieces != [] {
      FlattenNonEmpty(pieces[1..]);
      if pieces[0] != "" {
        assert ([pieces[0]] + NonEmpty(pieces[1..]))[1..] == NonEmpty(pieces[1..]);
      }
    }
  }

  lemma {:induction false} FlattenSegments(s: string)
    ensures Flatten(Segments(s)) == RemoveDots(s)
  {
    if s != [] {
      FlattenSegments(s[1..]);
      var rest := Segments(s[1..]);
      if s[0] == '.' {
        assert ([""] + rest)[1..] == rest;
      } else {
        var r := [[s[0]] + rest[0]] + rest[1..];
        assert r[1..] == rest[1..];
        assert Flatten(rest) == rest[0] + Flatten(rest[1..]);
      }
    }
  }

  /** Writing the words one after another gives `s` with its dots removed: no letter is lost or invented. */
  lemma WordsFlatten(s: string)
    ensures Flatten(Words(s)) == RemoveDots(s)
  {
    FlattenNonEmpty(Segments(s));
    FlattenSegments(s);
  }

  /** A non-empty dot-free string is one word; the empty string has none. */
  lemma WordsSingle(s: string)
    requires '.' !in s
    ensures Words(s) == (if s == "" then [] else [s])
  {
    DotFreeSegments(s);
    if s == "" {
      assert NonEmpty([""]) == NonEmpty([]);
    } else {
      assert NonEmpty([s]) == [s] + NonEmpty([]);
    }
  }

  /** No piece of `split('.')` contains the separator. */
  lemma {:induction false} SegmentsDotFree(s: string)
    ensures forall i :: 0 <= i < |Segments(s)| ==> '.' !in Segments(s)[i]
  {
    if s != [] {
      SegmentsDotFree(s[1..]);
      var rest := Segments(s[1..]);
      if s[0] != '.' {
        var first := [s[0]] + rest[0];
        assert '.' !in first by {
          assert forall k :: 0 < k < |first| ==> first[k] == rest[0][k - 1];
        }
        var r := [first] + rest[1..];
        forall i | 0 < i < |r| ensures '.' !in r[i] {
          assert r[i] == rest[i];
        }
      } else {
        var r := [""] + rest;
        forall i | 0 < i < |r| ensures '.' !in r[i] {
          assert r[i] == rest[i - 1];
        }
      }
    }
  }

  /** The filter keeps only non-empty pieces, so from dot-free pieces only words remain. */
  lemma {:induction false} NonEmptyWords(pieces: seq<string>)
    requires forall i :: 0 <= i < |pieces| ==> '.' !in pieces[i]
    ensures forall i :: 0 <= i < |NonEmpty(pieces)| ==> IsWord(NonEmpty(pieces)[i])
  {
    if pieces != [] {
      NonEmptyWords(pieces[1..]);
      if pieces[0] != "" {
        var r := NonEmpty(pieces);
        assert r == [pieces[0]] + NonEmpty(pieces[1..]);
        forall i | 0 < i < |r| ensures IsWord(r[i]) {
          assert r[i] == NonEmpty(pieces[1..])[i - 1];
        }
      }
    }
  }

  /** `words(s)` never yields an empty string nor one containing '.'. */
  lemma WordsAreWords(s: string)
    ensures forall i :: 0 <= i < |Words(s)| ==> IsWord(Words(s)[i])
  {
    SegmentsDotFree(s);
    NonEmptyWords(Segments(s));
  }

  // ---------------------------------------------------------------------
  // Puzzle::answers(): the row pass and the column pass
  // ---------------------------------------------------------------------

  /** The `fold` with `push_str`: the cells of a line written one after another. */
  function Concat(cells: seq<string>): string {
    if cells == [] then "" else Concat(cells[..|cells| - 1]) + cells[|cells| - 1]
  }

  /** The column count: the length of the first row, 0 for a grid without rows. */
  function NumCols(grid: Grid): nat {
    if grid == [] then 0 else |grid[0]|
  }

  /** Indexing `grid[row_num][col_num]` never panics: no row is shorter than the first. */
  predicate WellFormed(grid: Grid) {
    forall r :: 0 <= r < |grid| ==> NumCols(grid) <= |grid[r]|
  }

  /** Cells `col` of every row, top to bottom. */
  function Column(grid: Grid, col: nat): (r: seq<string>)
    requires forall k :: 0 <= k < |grid| ==> col < |grid[k]|
  {
    seq(|grid|, k requires 0 <= k < |grid| => grid[k][col])
  }

  /** The words of each row, rows in order. */
  function RowWords(grid: Grid): seq<string> {
    if grid == [] then [] else RowWords(grid[..|grid| - 1]) + Words(Concat(grid[|grid| - 1]))
  }

  /** The words of columns `0 .. count`, columns in order. */
  function ColumnWords(grid: Grid, count: nat): seq<string>
    requires forall k :: 0 <= k < |grid| ==> count <= |grid[k]|
  {
    if count == 0 then [] else ColumnWords(grid, count - 1) + Words(Concat(Column(grid, count - 1)))
  }

  /** What `answers()` returns: the row words, then the words of the first `NumCols(grid)` columns. */
  function GridAnswers(grid: Grid): (r: seq<string>)
    requires WellFormed(grid)
    ensures grid == [] ==> r == []
  {
    RowWords(grid) + ColumnWords(grid, NumCols(grid))
  }

  /** `Puzzle::answers` (src/schema.rs:54-86): the row pass, then the column pass. */
  method Answers(puzzle: Puzzle) returns (answers: seq<string>)
    requires WellFormed(puzzle.content.grid)
    ensures answers == GridAnswers(puzzle.content.grid)
  {
    var grid := puzzle.content.grid;
    answers := RowPass(grid);
    answers := ColumnPass(grid, answers);
  }

  /** The first loop of `answers()`: each row's cells joined, its words appended. */
  method RowPass(grid: Grid) returns (answers: seq<string>)
    ensures answers == RowWords(grid)
  {
    answers := [];
    for i := 0 to |grid|
      invariant answers == RowWords(grid[..i])
    {
      var s := Concat(grid[i]);
      assert grid[..i + 1][..i] == grid[..i];
      answers := answers + Words(s);
    }
    assert grid[..|grid|] == grid;
  }

  /** The second loop of `answers()`: for each of the first row's columns, its words appended. */
  method ColumnPass(grid: Grid, before: seq<string>) returns (answers: seq<string>)
    requires WellFormed(grid)
    ensures answers == before + ColumnWords(grid, NumCols(grid))
  {
    answers := before;
    var numCols := if grid == [] then 0 else |grid[0]|;
    for col := 0 to numCols
      invariant answers == before + ColumnWords(grid, col)
    {
      var s := ColumnText(grid, col);
      answers := answers + Words(s);
      assert answers == before + (ColumnWords(grid, col) + Words(s));
    }
  }

  /** The inner loop of the column pass: cell `col` of every row, top to bottom, by `push_str`. */
  method ColumnText(grid: Grid, col: nat) returns (s: string)
    requires forall k :: 0 <= k < |grid| ==> col < |grid[k]|
    ensures s == Concat(Column(grid, col))
  {
    ghost var column := Column(grid, col);
    s := "";
    for row := 0 to |grid|
      invariant s == Concat(column[..row])
    {
      assert column[..row + 1][..row] == column[..row];
      s := s + grid[row][col];
    }
    assert column[..|grid|] == column;
  }

  /** Cutting every row to the first row's width changes nothing in the column pass. */
  function Truncate(grid: Grid, width: nat): (r: Grid)
    requires forall k :: 0 <= k < |grid| ==> width <= |grid[k]|
    ensures |r| == |grid|
    ensures forall k :: 0 <= k < |grid| ==> r[k] == grid[k][..width]
  {
    seq(|grid|, k requires 0 <= k < |grid| => grid[k][..width])
  }

  /**
   * The column pass reads exactly the first `NumCols(grid)` columns: the cells a
   * longer row has beyond that width never reach a column word.
   */
  lemma {:induction false} ColumnPassIgnoresOverhang(grid: Grid, count: nat)
    requires WellFormed(grid)
    requires count <= NumCols(grid)
    ensures ColumnWords(grid, count) == ColumnWords(Truncate(grid, NumCols(grid)), count)
  {
    if count > 0 {
      ColumnPassIgnoresOverhang(grid, count - 1);
      var t := Truncate(grid, NumCols(grid));
      assert Column(grid, count - 1) == Column(t, count - 1);
    }
  }

  lemma {:induction false} SingleRowColumns(row: seq<string>, count: nat)
    requires count <= |row|
    requires forall c :: 0 <= c < |row| ==> IsWord(row[c])
    ensures ColumnWords([row], count) == row[..count]
  {
    if count > 0 {
      SingleRowColumns(row, count - 1);
      var cell := row[count - 1];
      assert Column([row], count - 1) == [cell];
      assert Concat([cell]) == cell by {
        assert [cell][..0] == [];
      }
      WordsSingle(cell);
      assert row[..count] == row[..count - 1] + [cell];
    }
  }

  lemma {:induction false} ConcatDotFree(cells: seq<string>)
    requires forall c :: 0 <= c < |cells| ==> '.' !in cells[c]
    ensures '.' !in Concat(cells)
    ensures (exists c :: 0 <= c < |cells| && cells[c] != "") ==> Concat(cells) != ""
  {
    if cells != [] {
      var init := cells[..|cells| - 1];
      ConcatDotFree(init);
      if exists c :: 0 <= c < |cells| && cells[c] != "" {
        var c :| 0 <= c < |cells| && cells[c] != "";
        if c < |cells| - 1 {
          assert init[c] == cells[c];
        }
      }
    }
  }

  /** Every answer of a well-formed grid is a word: non-empty and free of '.'. */
  lemma GridAnswersAreWords(grid: Grid)
    requires WellFormed(grid)
    ensures forall i :: 0 <= i < |GridAnswers(grid)| ==> IsWord(GridAnswers(grid)[i])
  {
    RowWordsAreWords(grid);
    ColumnWordsAreWords(grid, NumCols(grid));
  }

  lemma {:induction false} RowWordsAreWords(grid: Grid)
    ensures forall i :: 0 <= i < |RowWords(grid)| ==> IsWord(RowWords(grid)[i])
  {
    if grid != [] {
      RowWordsAreWords(grid[..|grid| - 1]);
      WordsAreWords(Concat(grid[|grid| - 1]));
    }
  }

  lemma {:induction false} ColumnWordsAreWords(grid: Grid, count: nat)
    requires forall k :: 0 <= k < |grid| ==> count <= |grid[k]|
    ensures forall i :: 0 <= i < |ColumnWords(grid, count)| ==> IsWord(ColumnWords(grid, count)[i])
  {
    if count > 0 {
      ColumnWordsAreWords(grid, count - 1);
      WordsAreWords(Concat(Column(grid, count - 1)));
    }
  }

  /**
   * One row of letters: one across answer, the whole row, and one down
   * answer per cell, that cell.
   */
  lemma SingleRowAnswers(row: seq<string>)
    requires forall c :: 0 <= c < |row| ==> IsWord(row[c])
    ensures GridAnswers([row]) == (if row == [] then [] else [Concat(row)]) + row
  {
    SingleRowAcross(row);
    SingleRowColumns(row, |row|);
    assert row[..|row|] == row;
  }

  lemma SingleRowAcross(row: seq<string>)
    requires forall c :: 0 <= c < |row| ==> IsWord(row[c])
    ensures RowWords([row]) == (if row == [] then [] else [Concat(row)])
  {
    var text := Concat(row);
    ConcatDotFree(row);
    if row != [] {
      assert row[0] != "";
    }
    WordsSingle(text);
    assert [row][..0] == [];
  }
}
