/**
 * The progress tracker: one numbered circle per listed puzzle, marked
 * completed when a progress row says so, otherwise marked current at the
 * current index, otherwise pending. The completed puzzles are collected first
 * into a map from puzzle id to `true`.
 */
module Tracker {
  import opened Schema

  /** The puzzle ids some row marks completed. */
  function CompletedIds(progressData: seq<Progress>): set<int> {
    set x | x in progressData && x.completed :: x.puzzleId
  }

  /**
   * The `forEach` over the rows: every completed row sets its puzzle's entry
   * to true; other rows are skipped. The keys are exactly the completed ids.
   */
  method CompletedMap(progressData: seq<Progress>) returns (completedMap: map<int, bool>)
    ensures completedMap.Keys == CompletedIds(progressData)
    ensures forall k :: k in completedMap ==> completedMap[k]
  {
    completedMap := map[];
    var i := 0;
    while i < |progressData|
      invariant 0 <= i <= |progressData|
      invariant completedMap.Keys == CompletedIds(progressData[..i])
      invariant forall k :: k in completedMap ==> completedMap[k]
    {
      var p := progressData[i];
      if p.completed {
        completedMap := completedMap[p.puzzleId := true];
      }
      CompletedIdsSnoc(progressData[..i], p);
      assert progressData[..i + 1] == progressData[..i] + [p];
      i := i + 1;
    }
    assert progressData[..i] == progressData;
  }

  /** Appending one row adds its puzzle id when, and only when, the row is completed. */
  lemma CompletedIdsSnoc(rows: seq<Progress>, x: Progress)
    ensures CompletedIds(rows + [x]) == if x.completed then CompletedIds(rows) + {x.puzzleId} else CompletedIds(rows)
  {
    assert forall y :: y in rows + [x] <==> y in rows || y == x;
  }

  /** Rows marked not completed contribute nothing. */
  lemma IncompleteRowsIgnored(rows: seq<Progress>, extra: seq<Progress>)
    requires forall x :: x in extra ==> !x.completed
    ensures CompletedIds(rows + extra) == CompletedIds(rows)
  {
    assert forall y :: y in rows + extra <==> y in rows || y in extra;
  }

  /** The order of the rows does not matter: any permutation marks the same puzzles. */
  lemma CompletedIdsOrderFree(rows: seq<Progress>, rows': seq<Progress>)
    requires multiset(rows) == multiset(rows')
    ensures CompletedIds(rows) == CompletedIds(rows')
  {
    forall y ensures y in rows <==> y in rows' {
      assert y in rows <==> y in multiset(rows);
      assert y in rows' <==> y in multiset(rows');
    }
  }

  /** Later rows never un-mark a puzzle: a completed id stays completed whatever follows. */
  lemma CompletedIdsMonotone(rows: seq<Progress>, later: seq<Progress>)
    ensures CompletedIds(rows) <= CompletedIds(rows + later)
  {
    assert forall y :: y in rows ==> y in rows + later;
  }

  datatype Status = Completed | Current | Pending

  /** One circle: keyed by the puzzle id, numbered with its 1-based position. */
  datatype Circle = Circle(key: int, number: int, status: Status)

  /** The circle status: completed first, then current, then pending. */
  function StatusOf(completed: set<int>, puzzle: Puzzle, index: int, currentIndex: int): (s: Status)
    ensures s == Completed <==> puzzle.id in completed
    ensures s == Current <==> puzzle.id !in completed && index == currentIndex
  {
    if puzzle.id in completed then Completed
    else if index == currentIndex then Current
    else Pending
  }

  /** The circles of the tracker for `puzzles`, the session's rows and the current index. */
  function Circles(puzzles: seq<Puzzle>, progressData: seq<Progress>, currentIndex: int): (circles: seq<Circle>)
    ensures |circles| == |puzzles|
    ensures forall i :: 0 <= i < |puzzles| ==>
      && circles[i].key == puzzles[i].id
      && circles[i].number == i + 1
      && (circles[i].status == Completed <==> exists x :: x in progressData && x.completed && x.puzzleId == puzzles[i].id)
      && (circles[i].status == Current <==> puzzles[i].id !in CompletedIds(progressData) && i == currentIndex)
  {
    var completed := CompletedIds(progressData);
    seq(|puzzles|, i requires 0 <= i < |puzzles| => Circle(puzzles[i].id, i + 1, StatusOf(completed, puzzles[i], i, currentIndex)))
  }

  /** At most one circle is marked current, and only the one at the current index. */
  lemma AtMostOneCurrent(puzzles: seq<Puzzle>, progressData: seq<Progress>, currentIndex: int, i: int, j: int)
    requires 0 <= i < |puzzles| && 0 <= j < |puzzles|
    requires Circles(puzzles, progressData, currentIndex)[i].status == Current
    requires Circles(puzzles, progressData, currentIndex)[j].status == Current
    ensures i == j == currentIndex
  {
  }

  /** Rows for puzzles that are not listed change no circle. */
  lemma UnlistedRowsIgnored(puzzles: seq<Puzzle>, rows: seq<Progress>, extra: seq<Progress>, currentIndex: int)
    requires forall x, i :: x in extra && 0 <= i < |puzzles| ==> x.puzzleId != puzzles[i].id
    ensures Circles(puzzles, rows + extra, currentIndex) == Circles(puzzles, rows, currentIndex)
  {
    var a, b := Circles(puzzles, rows + extra, currentIndex), Circles(puzzles, rows, currentIndex);
    forall i | 0 <= i < |puzzles| ensures a[i] == b[i] {
      assert puzzles[i].id in CompletedIds(rows + extra) <==> puzzles[i].id in CompletedIds(rows) by {
        assert forall y :: y in rows + extra <==> y in rows || y in extra;
      }
    }
  }

  /** The component body: build the completed map, then one circle per puzzle. */
  method Render(puzzles: seq<Puzzle>, progressData: seq<Progress>, currentIndex: int) returns (circles: seq<Circle>)
    ensures circles == Circles(puzzles, progressData, currentIndex)
  {
    var completedMap := CompletedMap(progressData);
    circles := seq(|puzzles|, i requires 0 <= i < |puzzles| =>
      Circle(puzzles[i].id, i + 1, StatusOf(completedMap.Keys, puzzles[i], i, currentIndex)));
  }
}
