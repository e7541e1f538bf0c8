/**
 * Collecting the recent history of the catalogue (src/puzzle_loader.rs):
 * pages 0, 1, 2, ... are requested in turn, the puzzles on each page whose
 * title names a known source and a readable date are kept, in page order,
 * and the requests stop as soon as at least the wanted number is collected.
 *
 * The HTTP client is a function from page number to the puzzles on that
 * page or the failure of the request.
 */
module Loader {
  import opened Wrappers
  import opened Schema
  import opened Dates
  import opened Classify

  /** The reason the client gives for a failed request (the HTTP and JSON details are not modelled). */
  datatype NetworkError = NetworkError(reason: string)

  /** The crate's error type, as far as this loop produces it: `Error::Network`. */
  datatype Error = Network(cause: NetworkError)

  /** A puzzle together with the source and the date read from its title. */
  datatype RemotePuzzle = RemotePuzzle(date: Date, source: PuzzleSource, puzzle: Puzzle)

  /** `Client::get_page`: page number to the puzzles on that page, or the failure. */
  type PageSource = nat -> Result<seq<Puzzle>, NetworkError>

  // ---------------------------------------------------------------------
  // Classifying one page
  // ---------------------------------------------------------------------

  /** The `filter_map` closure: a puzzle is kept when it has a source and a date under that source. */
  function ClassifyPuzzle(puzzle: Puzzle): (r: Option<RemotePuzzle>)
    ensures r.Some? ==>
      && r.value.puzzle == puzzle
      && PuzzleSourceOf(puzzle) == Some(r.value.source)
      && PuzzleDate(puzzle, r.value.source) == Some(r.value.date)
    ensures r.None? <==> PuzzleSourceOf(puzzle).None? || PuzzleDate(puzzle, PuzzleSourceOf(puzzle).value).None?
  {
    match PuzzleSourceOf(puzzle)
    case None => None
    case Some(source) =>
      match PuzzleDate(puzzle, source)
      case Some(date) => Some(RemotePuzzle(date, source, puzzle))
      case None => None
  }

  /**
   * A title that matches a source's pattern but carries no date either format
   * reads is dropped, with the warning the source logs.
   */
  lemma UnreadableDateDropped(puzzle: Puzzle, source: PuzzleSource, rest: string)
    requires Capture(Prefix(source), puzzle.Title()) == Some(rest)
    requires Parse(Short, rest).None? && Parse(Long, rest).None?
    ensures ClassifyPuzzle(puzzle).None?
  {
    UnparseableDate(puzzle, source, rest);
  }

  /** The closure given to `filter_map`; the loop below is stated for any such closure. */
  type Classifier = Puzzle -> Option<RemotePuzzle>

  /** A record the closure keeps for the puzzle it was made from. */
  predicate Classified(classify: Classifier, r: RemotePuzzle) {
    classify(r.puzzle) == Some(r)
  }

  /** The closure wraps the very puzzle it is given, as `RemotePuzzle { puzzle, .. }` does. */
  ghost predicate KeepsPuzzle(classify: Classifier) {
    forall p :: classify(p).Some? ==> classify(p).value.puzzle == p
  }

  /** `filter_map` over one page: the records kept, in page order. */
  function ClassifyPage(classify: Classifier, page: seq<Puzzle>): seq<RemotePuzzle> {
    if page == [] then []
    else
      var kept := ClassifyPage(classify, page[..|page| - 1]);
      match classify(page[|page| - 1])
      case Some(r) => kept + [r]
      case None => kept
  }

  // ---------------------------------------------------------------------
  // The loop, specified
  // ---------------------------------------------------------------------

  /** Pages 0 to n - 1 fetched in order: the records kept from them, or the first failure. */
  function Fetched(getPage: PageSource, classify: Classifier, n: nat): Result<seq<RemotePuzzle>, Error> {
    if n == 0 then Ok([])
    else
      var before :- Fetched(getPage, classify, n - 1);
      match getPage(n - 1)
      case Err(e) => Err(Network(e))
      case Ok(page) => Ok(before + ClassifyPage(classify, page))
  }

  /** After n pages the loop is over: a request failed, or the records reach the target. */
  predicate Stops(getPage: PageSource, classify: Classifier, target: nat, n: nat) {
    Fetched(getPage, classify, n).Err? || |Fetched(getPage, classify, n).value| >= target
  }

  /** One more page: its records are appended, or its failure ends the run. */
  lemma FetchedNext(getPage: PageSource, classify: Classifier, n: nat, puzzles: seq<RemotePuzzle>)
    requires Fetched(getPage, classify, n) == Ok(puzzles)
    ensures getPage(n).Err? ==> Fetched(getPage, classify, n + 1) == Err(Network(getPage(n).error))
    ensures getPage(n).Ok? ==> Fetched(getPage, classify, n + 1) == Ok(puzzles + ClassifyPage(classify, getPage(n).value))
  {
  }

  // ---------------------------------------------------------------------
  // history_until
  // ---------------------------------------------------------------------

  /** The `filter_map` and `for_each` of one page: the page's records pushed onto `puzzles`. */
  method PushClassified(classify: Classifier, puzzles: seq<RemotePuzzle>, items: seq<Puzzle>)
      returns (result: seq<RemotePuzzle>)
    ensures result == puzzles + ClassifyPage(classify, items)
  {
    result := puzzles;
    for i := 0 to |items|
      invariant result == puzzles + ClassifyPage(classify, items[..i])
    {
      assert items[..i + 1][..i] == items[..i];
      match classify(items[i])
      case Some(record) =>
        result := result + [record];
      case None =>
    }
    assert items[..|items|] == items;
  }

  /**
   * The loop of `PuzzleLoader::history_until`, for the closure `classify`.
   * `requested` lists the page numbers asked for, in order. The loop ends
   * only if the catalogue eventually yields enough records or fails, so that
   * is required of `getPage`.
   */
  method CollectUntil(getPage: PageSource, classify: Classifier, historyCount: nat)
      returns (r: Result<seq<RemotePuzzle>, Error>, ghost requested: seq<nat>)
    requires exists n: nat :: Stops(getPage, classify, historyCount, n)
    ensures forall i :: 0 <= i < |requested| ==> requested[i] == i
    ensures r == Fetched(getPage, classify, |requested|)
    ensures Stops(getPage, classify, historyCount, |requested|)
    ensures forall n :: 0 <= n < |requested| ==> !Stops(getPage, classify, historyCount, n)
  {
    var puzzles: seq<RemotePuzzle> := [];
    var pageNumber: nat := 0;
    requested := [];
    ghost var bound: nat :| Stops(getPage, classify, historyCount, bound);
    while |puzzles| < historyCount
      invariant pageNumber <= bound
      invariant |requested| == pageNumber
      invariant forall i :: 0 <= i < pageNumber ==> requested[i] == i
      invariant Fetched(getPage, classify, pageNumber) == Ok(puzzles)
      invariant forall n :: 0 <= n < pageNumber ==> !Stops(getPage, classify, historyCount, n)
      decreases bound - pageNumber
    {
      assert !Stops(getPage, classify, historyCount, pageNumber);
      requested := requested + [pageNumber];
      FetchedNext(getPage, classify, pageNumber, puzzles);
      var page := getPage(pageNumber);
      if page.Err? {
        r := Err(Network(page.error));
        return;
      }
      puzzles := PushClassified(classify, puzzles, page.value);
      pageNumber := pageNumber + 1;
    }
    r := Ok(puzzles);
  }

  /**
   * `PuzzleLoader::history_until`: the loop run with the closure that keeps a
   * puzzle when its title gives a source and a date. On success at least
   * `historyCount` records; on failure the error of the last page requested.
   */
  method HistoryUntil(getPage: PageSource, historyCount: nat)
      returns (r: Result<seq<RemotePuzzle>, Error>, ghost requested: seq<nat>)
    requires exists n: nat :: Stops(getPage, ClassifyPuzzle, historyCount, n)
    ensures forall i :: 0 <= i < |requested| ==> requested[i] == i
    ensures r == Fetched(getPage, ClassifyPuzzle, |requested|)
    ensures Stops(getPage, ClassifyPuzzle, historyCount, |requested|)
    ensures forall n :: 0 <= n < |requested| ==> !Stops(getPage, ClassifyPuzzle, historyCount, n)
    ensures r.Ok? ==> |r.value| >= historyCount
    ensures r.Err? ==> |requested| > 0 && getPage(|requested| - 1) == Err(r.error.cause)
    ensures historyCount == 0 ==> requested == [] && r == Ok([])
  {
    r, requested := CollectUntil(getPage, ClassifyPuzzle, historyCount);
    if |requested| > 0 {
      assert !Stops(getPage, ClassifyPuzzle, historyCount, 0);
      assert !Stops(getPage, ClassifyPuzzle, historyCount, |requested| - 1);
    }
    if r.Err? {
      ErrorFromLastPage(getPage, ClassifyPuzzle, |requested|);
    }
  }

  // ---------------------------------------------------------------------
  // Properties
  // ---------------------------------------------------------------------

  /** Every record kept from a page is one the closure keeps for its own puzzle. */
  lemma {:induction false} ClassifyPageClassified(classify: Classifier, page: seq<Puzzle>)
    requires KeepsPuzzle(classify)
    ensures forall i :: 0 <= i < |ClassifyPage(classify, page)| ==>
      Classified(classify, ClassifyPage(classify, page)[i])
  {
    if page != [] {
      ClassifyPageClassified(classify, page[..|page| - 1]);
    }
  }

  /** Every puzzle of a page that the closure keeps is among the page's records. */
  lemma {:induction false} ClassifyPageComplete(classify: Classifier, page: seq<Puzzle>, j: nat)
    requires j < |page| && classify(page[j]).Some?
    ensures classify(page[j]).value in ClassifyPage(classify, page)
  {
    var init := page[..|page| - 1];
    if j < |page| - 1 {
      assert init[j] == page[j];
      ClassifyPageComplete(classify, init, j);
    }
  }

  /** A page whose every puzzle is kept yields one record per puzzle. */
  lemma {:induction false} ClassifyPageAll(classify: Classifier, page: seq<Puzzle>)
    requires forall i :: 0 <= i < |page| ==> classify(page[i]).Some?
    ensures |ClassifyPage(classify, page)| == |page|
  {
    if page != [] {
      var init := page[..|page| - 1];
      assert forall i :: 0 <= i < |init| ==> init[i] == page[i];
      ClassifyPageAll(classify, init);
    }
  }

  /** A page never yields more records than it has puzzles. */
  lemma {:induction false} ClassifyPageShorter(classify: Classifier, page: seq<Puzzle>)
    ensures |ClassifyPage(classify, page)| <= |page|
  {
    if page != [] {
      ClassifyPageShorter(classify, page[..|page| - 1]);
    }
  }

  /** A page with a puzzle the closure drops yields fewer records than it has puzzles. */
  lemma {:induction false} ClassifyPageDrops(classify: Classifier, page: seq<Puzzle>, j: nat)
    requires j < |page| && classify(page[j]).None?
    ensures |ClassifyPage(classify, page)| < |page|
  {
    var init := page[..|page| - 1];
    if j < |page| - 1 {
      assert init[j] == page[j];
      ClassifyPageDrops(classify, init, j);
    } else {
      ClassifyPageShorter(classify, init);
    }
  }

  /** Every record of a successful run is one the closure keeps for its own puzzle. */
  lemma {:induction false} FetchedClassified(getPage: PageSource, classify: Classifier, n: nat)
    requires KeepsPuzzle(classify) && Fetched(getPage, classify, n).Ok?
    ensures forall i :: 0 <= i < |Fetched(getPage, classify, n).value| ==>
      Classified(classify, Fetched(getPage, classify, n).value[i])
  {
    if n > 0 {
      FetchedClassified(getPage, classify, n - 1);
      ClassifyPageClassified(classify, getPage(n - 1).value);
    }
  }

  /** Records are never dropped once collected: later pages only append. */
  lemma {:induction false} FetchedGrows(getPage: PageSource, classify: Classifier, m: nat, n: nat)
    requires m <= n && Fetched(getPage, classify, n).Ok?
    ensures Fetched(getPage, classify, m).Ok?
    ensures Fetched(getPage, classify, m).value <= Fetched(getPage, classify, n).value
  {
    if m < n {
      FetchedGrows(getPage, classify, m, n - 1);
    }
  }

  /** A failure is final: once a request fails, every longer run reports the same failure. */
  lemma {:induction false} FailureSticks(getPage: PageSource, classify: Classifier, m: nat, n: nat)
    requires m <= n && Fetched(getPage, classify, m).Err?
    ensures Fetched(getPage, classify, n) == Fetched(getPage, classify, m)
  {
    if m < n {
      FailureSticks(getPage, classify, m, n - 1);
    }
  }

  /** A run that fails right after n - 1 good pages reports the error of page n - 1. */
  lemma ErrorFromLastPage(getPage: PageSource, classify: Classifier, n: nat)
    requires Fetched(getPage, classify, n).Err?
    requires n == 0 || Fetched(getPage, classify, n - 1).Ok?
    ensures n > 0 && getPage(n - 1) == Err(Fetched(getPage, classify, n).error.cause)
  {
    assert n != 0;
  }

  /** There is one first page after which the loop is over, so the loader's result is determined. */
  lemma FirstStopUnique(getPage: PageSource, classify: Classifier, target: nat, m: nat, n: nat)
    requires Stops(getPage, classify, target, m)
    requires forall k :: 0 <= k < m ==> !Stops(getPage, classify, target, k)
    requires Stops(getPage, classify, target, n)
    requires forall k :: 0 <= k < n ==> !Stops(getPage, classify, target, k)
    ensures m == n
  {
  }

  /**
   * Records are not cut at the target: when the first page alone holds at
   * least the target, the loader stops after it and returns all of its records.
   */
  lemma OneFullPage(getPage: PageSource, classify: Classifier, target: nat)
    requires 0 < target
    requires getPage(0).Ok? && |ClassifyPage(classify, getPage(0).value)| >= target
    ensures !Stops(getPage, classify, target, 0) && Stops(getPage, classify, target, 1)
    ensures Fetched(getPage, classify, 1) == Ok(ClassifyPage(classify, getPage(0).value))
  {
    assert Fetched(getPage, classify, 0) == Ok([]);
    assert [] + ClassifyPage(classify, getPage(0).value) == ClassifyPage(classify, getPage(0).value);
  }

  /** Every record the loader returns carries the source and the date its title gives. */
  lemma HistoryRecords(getPage: PageSource, n: nat)
    requires Fetched(getPage, ClassifyPuzzle, n).Ok?
    ensures forall i :: 0 <= i < |Fetched(getPage, ClassifyPuzzle, n).value| ==>
      var record := Fetched(getPage, ClassifyPuzzle, n).value[i];
      && PuzzleSourceOf(record.puzzle) == Some(record.source)
      && PuzzleDate(record.puzzle, record.source) == Some(record.date)
  {
    FetchedClassified(getPage, ClassifyPuzzle, n);
  }
}
