/**
 * The home page's navigation state: the selected difficulty and the index of
 * the puzzle shown within that difficulty's list. The list itself is fetched
 * per difficulty and is `None` while it has not arrived.
 */
module HomePage {
  import opened Wrappers
  import opened Schema

  /** The largest index the navigation can reach in a list of `n` puzzles. */
  function LastIndex(n: nat): nat {
    if n == 0 then 0 else n - 1
  }

  /** "Next puzzle": one step forward while the list is loaded and the index is before its last element. */
  function NextIndex(index: int, puzzles: Option<seq<Puzzle>>): (r: int)
    ensures r == index + 1 <==> puzzles.Some? && index < |puzzles.value| - 1
    ensures r == index || r == index + 1
  {
    if puzzles.Some? && index < |puzzles.value| - 1 then index + 1 else index
  }

  /** Stepping keeps an index inside `[0, LastIndex(n)]` for a loaded list of length `n`. */
  lemma NextIndexInRange(index: int, puzzles: seq<Puzzle>)
    requires 0 <= index <= LastIndex(|puzzles|)
    ensures 0 <= NextIndex(index, Some(puzzles)) <= LastIndex(|puzzles|)
  {
  }

  /** `k` steps from index 0. */
  function Steps(k: nat, puzzles: Option<seq<Puzzle>>): int {
    if k == 0 then 0 else NextIndex(Steps(k - 1, puzzles), puzzles)
  }

  /** After `k` steps from the first puzzle of a loaded list the index is `min(k, LastIndex(n))`. */
  lemma {:induction false} StepsFromStart(k: nat, puzzles: seq<Puzzle>)
    ensures Steps(k, Some(puzzles)) == if k <= LastIndex(|puzzles|) then k else LastIndex(|puzzles|)
  {
    if k > 0 {
      StepsFromStart(k - 1, puzzles);
    }
  }

  /** Steps while the list has not arrived leave the index at 0. */
  lemma {:induction false} StepsWhileLoading(k: nat)
    ensures Steps(k, None) == 0
  {
    if k > 0 {
      StepsWhileLoading(k - 1);
    }
  }

  class Home {
    var selectedDifficulty: string
    var currentPuzzleIndex: int

    /** The index is a valid position for a list of `n` puzzles (0 when the list is empty). */
    ghost predicate IndexInRange(n: nat)
      reads this
    {
      0 <= currentPuzzleIndex <= LastIndex(n)
    }

    /** The first render: the easy tier, first puzzle. */
    constructor ()
      ensures selectedDifficulty == "easy" && currentPuzzleIndex == 0
      ensures forall n: nat :: IndexInRange(n)
    {
      selectedDifficulty := "easy";
      currentPuzzleIndex := 0;
    }

    /** Choosing a difficulty selects it and goes back to its first puzzle. */
    method HandleDifficultyChange(difficulty: string)
      modifies this
      ensures selectedDifficulty == difficulty && currentPuzzleIndex == 0
      ensures forall n: nat :: IndexInRange(n)
    {
      selectedDifficulty := difficulty;
      currentPuzzleIndex := 0;
    }

    /**
     * "Next puzzle": moves one step forward when the list is loaded and the
     * current puzzle is not its last; otherwise nothing changes.
     */
    method HandleNextPuzzle(puzzles: Option<seq<Puzzle>>)
      modifies this
      ensures currentPuzzleIndex == NextIndex(old(currentPuzzleIndex), puzzles)
      ensures selectedDifficulty == old(selectedDifficulty)
      ensures puzzles.Some? && old(IndexInRange(|puzzles.value|)) ==> IndexInRange(|puzzles.value|)
    {
      if puzzles.Some? && currentPuzzleIndex < |puzzles.value| - 1 {
        currentPuzzleIndex := currentPuzzleIndex + 1;
      }
      if puzzles.Some? && 0 <= old(currentPuzzleIndex) <= LastIndex(|puzzles.value|) {
        NextIndexInRange(old(currentPuzzleIndex), puzzles.value);
      }
    }

    /** `puzzles?.[currentPuzzleIndex]`: the shown puzzle, absent while loading or past the end. */
    function CurrentPuzzle(puzzles: Option<seq<Puzzle>>): (p: Option<Puzzle>)
      reads this
      ensures p.Some? <==> puzzles.Some? && 0 <= currentPuzzleIndex < |puzzles.value|
      ensures p.Some? ==> p.value == puzzles.value[currentPuzzleIndex] && p.value in puzzles.value
    {
      if puzzles.Some? && 0 <= currentPuzzleIndex < |puzzles.value| then Some(puzzles.value[currentPuzzleIndex])
      else None
    }

    /** The number shown on the card, counted from 1. */
    function PuzzleNumber(): (n: int)
      reads this
      ensures n - 1 == currentPuzzleIndex
      ensures currentPuzzleIndex >= 0 ==> n >= 1
    {
      currentPuzzleIndex + 1
    }
  }

  /** With the index in range, a non-empty loaded list always shows a puzzle, the one at the index. */
  lemma ShownWhenLoaded(home: Home, puzzles: seq<Puzzle>)
    requires home.IndexInRange(|puzzles|) && puzzles != []
    ensures home.CurrentPuzzle(Some(puzzles)) == Some(puzzles[home.currentPuzzleIndex])
    ensures 1 <= home.PuzzleNumber() <= |puzzles|
  {
  }
}
