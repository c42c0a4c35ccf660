/**
 * The catalogue the store seeds itself with: twenty easy, twenty medium and
 * twenty hard puzzles, created in that order, each tier numbered 1..20 by
 * `order`. The wording of each puzzle (instructions, text, solution, hint) is
 * reference data and is supplied from outside; only its tier and order are
 * fixed here.
 */
module Catalog {
  import opened Wrappers
  import opened Schema
  import opened Listing

  const TierSize: nat := 20
  const CatalogSize: nat := 60

  /** The wording of one seeded puzzle. */
  datatype PuzzleContent = PuzzleContent(instructions: string, text: string, solution: string, hint: string)

  /** Tier `t` in creation order: "easy", then "medium", then "hard". */
  function TierName(t: nat): (name: string)
    requires t < 3
    ensures name in {"easy", "medium", "hard"}
  {
    if t == 0 then "easy" else if t == 1 then "medium" else "hard"
  }

  /** Tier 0 is "easy", tier 1 "medium" and tier 2 "hard", so distinct tiers have distinct names. */
  lemma TierNamesInOrder(t: nat)
    requires t < 3
    ensures t == 0 <==> TierName(t) == "easy"
    ensures t == 1 <==> TierName(t) == "medium"
    ensures t == 2 <==> TierName(t) == "hard"
    ensures forall u :: 0 <= u < 3 && u != t ==> TierName(u) != TierName(t)
  {
  }

  /** The tier of the `i`-th seeded puzzle: the first twenty are tier 0, the next twenty tier 1, the rest tier 2. */
  function TierOf(i: nat): (t: nat)
    requires i < CatalogSize
    ensures t < 3 && TierSize * t <= i < TierSize * t + TierSize
  {
    if i < TierSize then 0 else if i < 2 * TierSize then 1 else 2
  }

  /** The `i`-th `createPuzzle` call of the seeding, counted from 0. */
  function Seed(content: seq<PuzzleContent>, i: nat): (insert: InsertPuzzle)
    requires |content| == CatalogSize && i < CatalogSize
    ensures insert.difficulty == TierName(TierOf(i))
    ensures insert.order == i - TierSize * TierOf(i) + 1 && 1 <= insert.order <= TierSize
  {
    var c := content[i];
    InsertPuzzle(TierName(TierOf(i)), c.instructions, c.text, c.solution, c.hint, i - TierSize * TierOf(i) + 1)
  }

  /** The puzzle stored under `id` once the seeding has run on an empty store (ids 1..60). */
  function Seeded(content: seq<PuzzleContent>, id: int): Puzzle
    requires |content| == CatalogSize && 1 <= id <= CatalogSize
  {
    PuzzleWithId(Seed(content, id - 1), id)
  }

  /** The seeded puzzles of tier `t` in creation order: ids 20t+1 .. 20t+20. */
  function TierBlock(content: seq<PuzzleContent>, t: nat): (block: seq<Puzzle>)
    requires |content| == CatalogSize && t < 3
    ensures |block| == TierSize
    ensures forall j :: 0 <= j < TierSize ==> block[j] == Seeded(content, TierSize * t + j + 1)
  {
    seq(TierSize, j requires 0 <= j < TierSize => Seeded(content, TierSize * t + j + 1))
  }

  /** All seeded puzzles in creation (= insertion = id) order. */
  function SeededValues(content: seq<PuzzleContent>): (all: seq<Puzzle>)
    requires |content| == CatalogSize
    ensures |all| == CatalogSize
    ensures forall i :: 0 <= i < CatalogSize ==> all[i] == Seeded(content, i + 1)
  {
    seq(CatalogSize, i requires 0 <= i < CatalogSize => Seeded(content, i + 1))
  }

  /** Each seeded puzzle's tier and order are fixed by its id alone. */
  lemma SeededFacts(content: seq<PuzzleContent>, id: int)
    requires |content| == CatalogSize && 1 <= id <= CatalogSize
    ensures Seeded(content, id).id == id
    ensures Seeded(content, id).difficulty == TierName(TierOf(id - 1))
    ensures Seeded(content, id).order == id - 1 - TierSize * TierOf(id - 1) + 1
    ensures 1 <= Seeded(content, id).order <= TierSize
  {
  }

  lemma SeededValuesBlocks(content: seq<PuzzleContent>)
    requires |content| == CatalogSize
    ensures SeededValues(content) == TierBlock(content, 0) + TierBlock(content, 1) + TierBlock(content, 2)
  {
    var all := SeededValues(content);
    var blocks := TierBlock(content, 0) + TierBlock(content, 1) + TierBlock(content, 2);
    forall i | 0 <= i < CatalogSize ensures all[i] == blocks[i] {
      if i < 20 {
      } else if i < 40 {
        assert blocks[i] == TierBlock(content, 1)[i - 20];
      } else {
        assert blocks[i] == TierBlock(content, 2)[i - 40];
      }
    }
  }

  lemma SeededValuesAscending(content: seq<PuzzleContent>)
    requires |content| == CatalogSize
    ensures Ascending(SeededValues(content), IdOf)
  {
  }

  /** Block `u` passes the filter on tier `t` whole when `u == t` and not at all otherwise. */
  lemma {:induction false} BlockFilter(content: seq<PuzzleContent>, u: nat, t: nat)
    requires |content| == CatalogSize && u < 3 && t < 3
    ensures Filter(TierBlock(content, u), TierIs(TierName(t))) == if u == t then TierBlock(content, u) else []
  {
    var b := TierBlock(content, u);
    var keep := TierIs(TierName(t));
    forall x | x in b ensures keep(x) == (u == t) {
      var j :| 0 <= j < |b| && b[j] == x;
      SeededFacts(content, TierSize * u + j + 1);
      assert TierOf(TierSize * u + j) == u;
    }
    if u == t {
      FilterKeepsAll(b, keep);
    } else {
      FilterKeepsNone(b, keep);
    }
  }

  /** Filtering the whole catalogue on tier `t` leaves exactly block `t`. */
  lemma {:induction false} TierFilter(content: seq<PuzzleContent>, t: nat)
    requires |content| == CatalogSize && t < 3
    ensures OfTier(SeededValues(content), Some(TierName(t))) == TierBlock(content, t)
  {
    var keep := TierIs(TierName(t));
    var all := SeededValues(content);
    assert OfTier(all, Some(TierName(t))) == Filter(all, keep);
    var b0, b1, b2 := TierBlock(content, 0), TierBlock(content, 1), TierBlock(content, 2);
    SeededValuesBlocks(content);
    FilterConcat(b0 + b1, b2, keep);
    FilterConcat(b0, b1, keep);
    var f0, f1, f2 := Filter(b0, keep), Filter(b1, keep), Filter(b2, keep);
    assert Filter(all, keep) == f0 + f1 + f2;
    BlockFilter(content, 0, t);
    BlockFilter(content, 1, t);
    BlockFilter(content, 2, t);
    PickBlock(f0, f1, f2, b0, b1, b2, t);
  }

  /** Of three parts of which only part `t` is kept and the others are empty, the concatenation is part `t`. */
  lemma PickBlock<T>(f0: seq<T>, f1: seq<T>, f2: seq<T>, b0: seq<T>, b1: seq<T>, b2: seq<T>, t: nat)
    requires t < 3
    requires f0 == (if t == 0 then b0 else [])
    requires f1 == (if t == 1 then b1 else [])
    requires f2 == (if t == 2 then b2 else [])
    ensures f0 + f1 + f2 == if t == 0 then b0 else if t == 1 then b1 else b2
  {
    if t == 0 {
      assert f0 + f1 + f2 == b0 + [] + [];
    } else if t == 1 {
      assert f0 + f1 + f2 == [] + b1 + [];
    } else {
      assert f0 + f1 + f2 == [] + [] + b2;
    }
  }

  /** Block `t` is already ascending by order (1, 2, ..., 20). */
  lemma TierBlockSorted(content: seq<PuzzleContent>, t: nat)
    requires |content| == CatalogSize && t < 3
    ensures SortedByOrder(TierBlock(content, t))
    ensures forall j :: 0 <= j < TierSize ==> TierBlock(content, t)[j].order == j + 1
  {
    var b := TierBlock(content, t);
    forall j | 0 <= j < TierSize ensures b[j].order == j + 1 {
      SeededFacts(content, TierSize * t + j + 1);
      assert TierOf(TierSize * t + j) == t;
    }
  }

  /**
   * Listing one tier of the seeded catalogue gives its twenty puzzles, ids
   * 20t+1 .. 20t+20, with orders exactly 1, 2, ..., 20.
   */
  lemma {:induction false} SeededTierListing(content: seq<PuzzleContent>, t: nat)
    requires |content| == CatalogSize && t < 3
    ensures ListPuzzles(SeededValues(content), Some(TierName(t))) == TierBlock(content, t)
    ensures |ListPuzzles(SeededValues(content), Some(TierName(t)))| == TierSize
    ensures forall j :: 0 <= j < TierSize ==>
      ListPuzzles(SeededValues(content), Some(TierName(t)))[j].order == j + 1 &&
      ListPuzzles(SeededValues(content), Some(TierName(t)))[j].difficulty == TierName(t)
  {
    SeededValuesAscending(content);
    TierFilter(content, t);
    TierBlockSorted(content, t);
    SortKeepsSorted(TierBlock(content, t));
    var b := TierBlock(content, t);
    forall j | 0 <= j < TierSize ensures b[j].difficulty == TierName(t) {
      SeededFacts(content, TierSize * t + j + 1);
      assert TierOf(TierSize * t + j) == t;
    }
  }

  /**
   * In a list strictly ascending by (order, id), if `a`, `b`, `c` are in it in
   * that order and nothing else is listed before `c`, they are its first three.
   */
  lemma {:induction false} FirstThree(r: seq<Puzzle>, a: Puzzle, b: Puzzle, c: Puzzle)
    requires SortedByOrderThenId(r)
    requires a in r && b in r && c in r
    requires Before(a, b) && Before(b, c)
    requires forall x :: x in r && Before(x, c) ==> x == a || x == b
    ensures |r| >= 3 && r[..3] == [a, b, c]
  {
    var ia :| 0 <= ia < |r| && r[ia] == a;
    var ib :| 0 <= ib < |r| && r[ib] == b;
    var ic :| 0 <= ic < |r| && r[ic] == c;
    SortedIndexOrder(r, ia, ib);
    SortedIndexOrder(r, ib, ic);
    var r0, r1, r2 := r[0], r[1], r[2];
    assert ic <= 2;
    assert r[..3] == [r[0], r[1], r[2]];
  }

  /** In a list strictly ascending by (order, id), an element listed before another sits at a smaller position. */
  lemma SortedIndexOrder(r: seq<Puzzle>, i: int, j: int)
    requires SortedByOrderThenId(r)
    requires 0 <= i < |r| && 0 <= j < |r| && Before(r[i], r[j])
    ensures i < j
  {
    var x, y := r[i], r[j];
  }

  /** In the seeded catalogue only ids 1, 21 and 41 have order 1. */
  lemma OnlyThreeFirsts(content: seq<PuzzleContent>, x: Puzzle)
    requires |content| == CatalogSize && x in SeededValues(content) && x.order <= 1
    ensures x == Seeded(content, 1) || x == Seeded(content, 21) || x == Seeded(content, 41)
  {
    var all := SeededValues(content);
    var i :| 0 <= i < CatalogSize && all[i] == x;
    SeededFacts(content, i + 1);
    assert i == TierSize * TierOf(i);
  }

  /**
   * Listing the whole seeded catalogue starts with the three order-1 puzzles in
   * id order: the first easy (id 1), medium (id 21) and hard (id 41) puzzle.
   */
  lemma {:induction false} SeededFullListingStart(content: seq<PuzzleContent>)
    requires |content| == CatalogSize
    ensures |ListPuzzles(SeededValues(content), None)| == CatalogSize
    ensures ListPuzzles(SeededValues(content), None)[..3] ==
      [Seeded(content, 1), Seeded(content, 21), Seeded(content, 41)]
  {
    SeededValuesAscending(content);
    var all := SeededValues(content);
    var r := ListPuzzles(all, None);
    assert r == SortByOrder(all);
    var a, b, c := Seeded(content, 1), Seeded(content, 21), Seeded(content, 41);
    SeededFacts(content, 1);
    SeededFacts(content, 21);
    SeededFacts(content, 41);
    assert all[0] == a && all[20] == b && all[40] == c;
    forall x | x in r && Before(x, c) ensures x == a || x == b {
      OnlyThreeFirsts(content, x);
    }
    FirstThree(r, a, b, c);
  }
}
