/**
 * The in-memory record store `MemStorage`: two id-keyed tables, `puzzles` and
 * `progress`, each with its own id counter that only ever grows.
 *
 * A JavaScript `Map` is a dictionary that also remembers the order in which
 * keys were first inserted; `Map.prototype.values()` iterates in that order and
 * `set` on a key already present keeps its place. Each table is therefore a
 * `map` together with the sequence of its keys in insertion order.
 */
module Storage {
  import opened Wrappers
  import opened Schema
  import opened Listing
  import opened Catalog

  /** The values of `m` visited in the key order `keys` (`Array.from(m.values())`). */
  function ValuesInOrder<V>(m: map<int, V>, keys: seq<int>): (r: seq<V>)
    requires forall i :: 0 <= i < |keys| ==> keys[i] in m
    ensures |r| == |keys| && forall i :: 0 <= i < |keys| ==> r[i] == m[keys[i]]
  {
    seq(|keys|, i requires 0 <= i < |keys| => m[keys[i]])
  }

  /** Keys strictly ascending: a key inserted later is larger. */
  ghost predicate KeysAscending(keys: seq<int>) {
    forall i, j :: 0 <= i < j < |keys| ==> keys[i] < keys[j]
  }

  function ProgressIdOf(r: Progress): int { r.id }

  /** The filter callback `p => p.sessionId === sessionId`. */
  function SessionIs(sessionId: string): Progress -> bool {
    (r: Progress) => r.sessionId == sessionId
  }

  /** The row `createProgress` stores for `insert` under `id`: absent `userId` is null, absent `completed` is false. */
  function ProgressWithId(insert: InsertProgress, id: int): (row: Progress)
    ensures row.id == id && row.puzzleId == insert.puzzleId
    ensures row.userId == insert.userId && row.sessionId == insert.sessionId
    ensures row.completed <==> insert.completed == Some(true)
  {
    Progress(id, insert.userId, insert.puzzleId, insert.completed.GetOr(false), insert.sessionId)
  }

  /** The ids `start, start + 1, ..., start + n - 1`, in that order. */
  function IdRange(start: int, n: nat): seq<int> {
    if n == 0 then [] else IdRange(start, n - 1) + [start + n - 1]
  }

  lemma {:induction false} IdRangeIndex(start: int, n: nat)
    ensures |IdRange(start, n)| == n
    ensures forall i :: 0 <= i < n ==> IdRange(start, n)[i] == start + i
  {
    if n > 0 {
      IdRangeIndex(start, n - 1);
    }
  }

  /** The puzzle table after the first `n` seeding calls on an empty store: ids 1..n. */
  function SeededTable(content: seq<PuzzleContent>, n: nat): map<int, Puzzle>
    requires |content| == CatalogSize && n <= CatalogSize
  {
    if n == 0 then map[] else SeededTable(content, n - 1)[n := Seeded(content, n)]
  }

  /** The seeded table holds exactly ids 1..n, each under its catalogue puzzle. */
  lemma {:induction false} SeededTableContents(content: seq<PuzzleContent>, n: nat)
    requires |content| == CatalogSize && n <= CatalogSize
    ensures forall id :: id in SeededTable(content, n) <==> 1 <= id <= n
    ensures forall id :: 1 <= id <= n ==> SeededTable(content, n)[id] == Seeded(content, id)
  {
    if n > 0 {
      SeededTableContents(content, n - 1);
    }
  }

  /** A table holding ids 1..60 under their seeded puzzles, listed in the key order 1..60, lists the seeded values. */
  lemma SeededTableValues(content: seq<PuzzleContent>, table: map<int, Puzzle>, keys: seq<int>)
    requires |content| == CatalogSize
    requires |keys| == CatalogSize && forall i :: 0 <= i < CatalogSize ==> keys[i] == 1 + i
    requires forall id :: 1 <= id <= CatalogSize ==> id in table && table[id] == Seeded(content, id)
    ensures forall i :: 0 <= i < |keys| ==> keys[i] in table
    ensures ValuesInOrder(table, keys) == SeededValues(content)
  {
    forall i | 0 <= i < |keys| ensures keys[i] in table {
      assert keys[i] == 1 + i;
    }
    var values, seeded := ValuesInOrder(table, keys), SeededValues(content);
    forall i | 0 <= i < CatalogSize ensures values[i] == seeded[i] {
      assert keys[i] == 1 + i;
    }
  }

  class MemStorage {
    var puzzles: map<int, Puzzle>
    var puzzleKeys: seq<int>
    var progress: map<int, Progress>
    var progressKeys: seq<int>
    var puzzleIdCounter: int
    var progressIdCounter: int

    /**
     * The store's invariant: the insertion order lists each key once, in
     * ascending order; every record sits under its own id; every id is at
     * least 1 and below its table's counter, so the counter never hands out
     * an id in use.
     */
    ghost predicate Valid()
      reads this
    {
      && 1 <= puzzleIdCounter && 1 <= progressIdCounter
      && KeysAscending(puzzleKeys) && (forall k :: k in puzzles <==> k in puzzleKeys)
      && (forall k :: k in puzzles ==> puzzles[k].id == k && 1 <= k < puzzleIdCounter)
      && KeysAscending(progressKeys) && (forall k :: k in progress <==> k in progressKeys)
      && (forall k :: k in progress ==> progress[k].id == k && 1 <= k < progressIdCounter)
    }

    /** `p` is the record stored under its own id. */
    ghost predicate StoredPuzzle(p: Puzzle)
      reads this
    {
      p.id in puzzles && puzzles[p.id] == p
    }

    /** `x` is the row stored under its own id. */
    ghost predicate StoredProgress(x: Progress)
      reads this
    {
      x.id in progress && progress[x.id] == x
    }

    /** Every stored puzzle, in insertion order (which is ascending id order). */
    function PuzzleValues(): (r: seq<Puzzle>)
      reads this
      requires Valid()
      ensures |r| == |puzzleKeys| && forall i :: 0 <= i < |r| ==> puzzleKeys[i] in puzzles && r[i] == puzzles[puzzleKeys[i]]
      ensures forall p :: p in r <==> StoredPuzzle(p)
      ensures Ascending(r, IdOf)
    {
      assert forall i :: 0 <= i < |puzzleKeys| ==> puzzleKeys[i] in puzzles by {
        forall i | 0 <= i < |puzzleKeys| ensures puzzleKeys[i] in puzzles {
          assert puzzleKeys[i] in puzzleKeys;
        }
      }
      var r := ValuesInOrder(puzzles, puzzleKeys);
      forall p | StoredPuzzle(p) ensures p in r {
        var i :| 0 <= i < |puzzleKeys| && puzzleKeys[i] == p.id;
        assert r[i] == p;
      }
      forall p | p in r ensures StoredPuzzle(p) {
        var i :| 0 <= i < |r| && r[i] == p;
        assert puzzleKeys[i] in puzzles && puzzles[puzzleKeys[i]].id == puzzleKeys[i];
      }
      r
    }

    /** Every stored progress row, in insertion order (which is ascending id order). */
    function ProgressValues(): (r: seq<Progress>)
      reads this
      requires Valid()
      ensures |r| == |progressKeys| && forall i :: 0 <= i < |r| ==> progressKeys[i] in progress && r[i] == progress[progressKeys[i]]
      ensures forall x :: x in r <==> StoredProgress(x)
      ensures Ascending(r, ProgressIdOf)
    {
      assert forall i :: 0 <= i < |progressKeys| ==> progressKeys[i] in progress by {
        forall i | 0 <= i < |progressKeys| ensures progressKeys[i] in progress {
          assert progressKeys[i] in progressKeys;
        }
      }
      var r := ValuesInOrder(progress, progressKeys);
      forall x | StoredProgress(x) ensures x in r {
        var i :| 0 <= i < |progressKeys| && progressKeys[i] == x.id;
        assert r[i] == x;
      }
      forall x | x in r ensures StoredProgress(x) {
        var i :| 0 <= i < |r| && r[i] == x;
        assert progressKeys[i] in progress && progress[progressKeys[i]].id == progressKeys[i];
      }
      r
    }

    /**
     * An empty store seeded with the catalogue: puzzles 1..60 in catalogue
     * order, the puzzle counter at 61, no progress rows.
     */
    constructor (content: seq<PuzzleContent>)
      requires |content| == CatalogSize
      ensures Valid()
      ensures puzzleIdCounter == CatalogSize + 1
      ensures forall id :: id in puzzles <==> 1 <= id <= CatalogSize
      ensures forall id :: 1 <= id <= CatalogSize ==> puzzles[id] == Seeded(content, id)
      ensures PuzzleValues() == SeededValues(content)
      ensures progress == map[] && progressKeys == [] && progressIdCounter == 1
    {
      puzzles := map[];
      puzzleKeys := [];
      progress := map[];
      progressKeys := [];
      puzzleIdCounter := 1;
      progressIdCounter := 1;
      new;
      InitializePuzzles(content);
      SeededTableContents(content, CatalogSize);
      IdRangeIndex(1, CatalogSize);
      SeededTableValues(content, puzzles, puzzleKeys);
    }

    /**
     * The seeding: one `createPuzzle` per catalogue entry, in catalogue order
     * (the source spells the sixty calls out one after another), into the empty
     * puzzle table the constructor has just made.
     */
    method InitializePuzzles(content: seq<PuzzleContent>)
      requires Valid() && |content| == CatalogSize
      requires puzzles == map[] && puzzleKeys == [] && puzzleIdCounter == 1
      modifies this
      ensures Valid()
      ensures puzzleIdCounter == CatalogSize + 1
      ensures puzzles == SeededTable(content, puzzleIdCounter - 1)
      ensures puzzleKeys == IdRange(1, puzzleIdCounter - 1)
      ensures progress == old(progress) && progressKeys == old(progressKeys)
      ensures progressIdCounter == old(progressIdCounter)
    {
      var i := 0;
      while i < CatalogSize
        invariant 0 <= i <= CatalogSize
        invariant Valid()
        invariant puzzleIdCounter == i + 1
        invariant puzzles == SeededTable(content, i)
        invariant puzzleKeys == IdRange(1, i)
        invariant progress == old(progress) && progressKeys == old(progressKeys)
        invariant progressIdCounter == old(progressIdCounter)
      {
        SeedNext(content, i);
        i := i + 1;
      }
    }

    /** One step of the seeding: the `createPuzzle` call for catalogue entry `i`. */
    method SeedNext(content: seq<PuzzleContent>, i: nat)
      requires Valid() && |content| == CatalogSize && i < CatalogSize
      requires puzzleIdCounter == i + 1 && puzzles == SeededTable(content, i) && puzzleKeys == IdRange(1, i)
      modifies this
      ensures Valid()
      ensures puzzleIdCounter == i + 2 && puzzles == SeededTable(content, i + 1) && puzzleKeys == IdRange(1, i + 1)
      ensures progress == old(progress) && progressKeys == old(progressKeys)
      ensures progressIdCounter == old(progressIdCounter)
    {
      var p := CreatePuzzle(Seed(content, i));
      assert p == Seeded(content, i + 1);
      assert IdRange(1, i + 1) == IdRange(1, i) + [i + 1];
    }

    /**
     * `getPuzzles(difficulty)`: with a non-empty tier, exactly the stored
     * puzzles of that tier; otherwise all of them; ascending by `order`, and
     * in id order among equal orders (the sort is stable over insertion order).
     */
    function GetPuzzles(difficulty: Option<string>): (r: seq<Puzzle>)
      reads this
      requires Valid()
      ensures forall p :: p in r <==>
        StoredPuzzle(p) && (FiltersOn(difficulty) ==> p.difficulty == difficulty.value)
      ensures SortedByOrderThenId(r)
    {
      ListPuzzles(PuzzleValues(), difficulty)
    }

    /** `getPuzzleById(id)`: the puzzle stored under `id`, which carries that id. */
    function GetPuzzleById(id: int): (r: Option<Puzzle>)
      reads this
      requires Valid()
      ensures r.Some? <==> id in puzzles
      ensures r.Some? ==> r.value == puzzles[id] && r.value.id == id
    {
      if id in puzzles then Some(puzzles[id]) else None
    }

    /**
     * `createPuzzle(insert)`: stores `{ ...insert, id }` under a fresh id, the
     * old counter, and raises the counter by one; nothing else changes.
     */
    method CreatePuzzle(insert: InsertPuzzle) returns (puzzle: Puzzle)
      requires Valid()
      modifies this
      ensures Valid()
      ensures puzzle == PuzzleWithId(insert, old(puzzleIdCounter))
      ensures puzzle.id !in old(puzzles)
      ensures puzzleIdCounter == old(puzzleIdCounter) + 1
      ensures puzzles == old(puzzles)[puzzle.id := puzzle]
      ensures puzzleKeys == old(puzzleKeys) + [puzzle.id]
      ensures progress == old(progress) && progressKeys == old(progressKeys)
      ensures progressIdCounter == old(progressIdCounter)
    {
      var id := puzzleIdCounter;
      assert forall i :: 0 <= i < |puzzleKeys| ==> puzzleKeys[i] < id by {
        forall i | 0 <= i < |puzzleKeys| ensures puzzleKeys[i] < id {
          assert puzzleKeys[i] in puzzleKeys;
        }
      }
      puzzleIdCounter := puzzleIdCounter + 1;
      puzzle := PuzzleWithId(insert, id);
      puzzles := puzzles[id := puzzle];
      puzzleKeys := puzzleKeys + [id];
    }

    /**
     * `getProgressBySessionId(sessionId)`: exactly the rows of that session,
     * in insertion (ascending id) order.
     */
    function GetProgressBySessionId(sessionId: string): (r: seq<Progress>)
      reads this
      requires Valid()
      ensures forall x :: x in r <==> StoredProgress(x) && x.sessionId == sessionId
      ensures Ascending(r, ProgressIdOf)
    {
      FilterKeepsAscending(ProgressValues(), SessionIs(sessionId), ProgressIdOf);
      Filter(ProgressValues(), SessionIs(sessionId))
    }

    /**
     * `createProgress(insert)`: stores the row under a fresh id, the old
     * counter, with `userId` null and `completed` false when absent, and
     * raises the counter by one; nothing else changes.
     */
    method CreateProgress(insert: InsertProgress) returns (row: Progress)
      requires Valid()
      modifies this
      ensures Valid()
      ensures row == ProgressWithId(insert, old(progressIdCounter))
      ensures row.id !in old(progress)
      ensures row.completed == (insert.completed == Some(true))
      ensures progressIdCounter == old(progressIdCounter) + 1
      ensures progress == old(progress)[row.id := row]
      ensures progressKeys == old(progressKeys) + [row.id]
      ensures puzzles == old(puzzles) && puzzleKeys == old(puzzleKeys)
      ensures puzzleIdCounter == old(puzzleIdCounter)
    {
      var id := progressIdCounter;
      assert forall i :: 0 <= i < |progressKeys| ==> progressKeys[i] < id by {
        forall i | 0 <= i < |progressKeys| ensures progressKeys[i] < id {
          assert progressKeys[i] in progressKeys;
        }
      }
      progressIdCounter := progressIdCounter + 1;
      row := ProgressWithId(insert, id);
      progress := progress[id := row];
      progressKeys := progressKeys + [id];
    }

    /**
     * `updateProgress(id, completed)`: on an unknown id, undefined and no
     * change; otherwise the row under `id` with only `completed` replaced,
     * stored in place (same id, same place in the iteration order).
     */
    method UpdateProgress(id: int, completed: bool) returns (r: Option<Progress>)
      requires Valid()
      modifies this
      ensures Valid()
      ensures r.Some? <==> id in old(progress)
      ensures r.None? ==> progress == old(progress)
      ensures r.Some? ==> r.value == old(progress)[id].(completed := completed)
      ensures r.Some? ==> progress == old(progress)[id := r.value]
      ensures r.Some? ==> r.value.id == id
      ensures progressKeys == old(progressKeys) && progressIdCounter == old(progressIdCounter)
      ensures puzzles == old(puzzles) && puzzleKeys == old(puzzleKeys)
      ensures puzzleIdCounter == old(puzzleIdCounter)
    {
      if id !in progress {
        return None;
      }
      var updated := progress[id].(completed := completed);
      progress := progress[id := updated];
      r := Some(updated);
    }
  }

  /**
   * A freshly constructed store lists the catalogue as the seeding promises:
   * the unfiltered listing starts with puzzles 1, 21 and 41 (the order-1
   * puzzles in id order), and each tier lists its twenty puzzles with orders
   * 1, 2, ..., 20.
   */
  method SeededStoreListings(content: seq<PuzzleContent>) returns (store: MemStorage)
    requires |content| == CatalogSize
    ensures fresh(store) && store.Valid()
    ensures |store.GetPuzzles(None)| == CatalogSize
    ensures store.GetPuzzles(None)[..3] == [Seeded(content, 1), Seeded(content, 21), Seeded(content, 41)]
    ensures forall t :: 0 <= t < 3 ==> store.GetPuzzles(Some(TierName(t))) == TierBlock(content, t)
    ensures forall t, j :: 0 <= t < 3 && 0 <= j < TierSize ==>
      j < |store.GetPuzzles(Some(TierName(t)))| &&
      store.GetPuzzles(Some(TierName(t)))[j].order == j + 1 &&
      store.GetPuzzles(Some(TierName(t)))[j].difficulty == TierName(t)
  {
    store := new MemStorage(content);
    SeededFullListingStart(content);
    forall t | 0 <= t < 3
      ensures store.GetPuzzles(Some(TierName(t))) == TierBlock(content, t)
      ensures forall j :: 0 <= j < TierSize ==>
        j < |store.GetPuzzles(Some(TierName(t)))| &&
        store.GetPuzzles(Some(TierName(t)))[j].order == j + 1 &&
        store.GetPuzzles(Some(TierName(t)))[j].difficulty == TierName(t)
    {
      SeededTierListing(content, t);
    }
  }
}
