/**
 * How the store lists records: `Array.prototype.filter` (keeps order) and the
 * stable `Array.prototype.sort` with the comparator `(a, b) => a.order - b.order`.
 * A stable sort of a list whose ids ascend leaves equal orders in id order, so
 * the listing is ordered by `order` first and by `id` second.
 */
module Listing {
  import opened Wrappers
  import opened Schema

  /** `s.filter(keep)`: the elements that pass, in their original order. */
  function Filter<T(!new)>(s: seq<T>, keep: T -> bool): (r: seq<T>)
    ensures forall x :: x in r <==> x in s && keep(x)
    ensures |r| <= |s|
  {
    if s == [] then []
    else (if keep(s[0]) then [s[0]] else []) + Filter(s[1..], keep)
  }

  /** The elements of `s` have strictly ascending keys (so no element occurs twice). */
  ghost predicate Ascending<T>(s: seq<T>, key: T -> int) {
    forall i, j :: 0 <= i < j < |s| ==> key(s[i]) < key(s[j])
  }

  /** Filtering keeps the relative order of what it keeps. */
  lemma {:induction false} FilterKeepsAscending<T(!new)>(s: seq<T>, keep: T -> bool, key: T -> int)
    requires Ascending(s, key)
    ensures Ascending(Filter(s, keep), key)
  {
    if s != [] {
      FilterKeepsAscending(s[1..], keep, key);
      var rest := Filter(s[1..], keep);
      forall x | x in rest ensures key(s[0]) < key(x) {
        var j :| 0 <= j < |s[1..]| && s[1..][j] == x;
        assert s[j + 1] == x;
      }
    }
  }

  /** Keeping every element is the identity. */
  lemma {:induction false} FilterKeepsAll<T(!new)>(s: seq<T>, keep: T -> bool)
    requires forall x :: x in s ==> keep(x)
    ensures Filter(s, keep) == s
  {
    if s != [] {
      FilterKeepsAll(s[1..], keep);
    }
  }

  /** Keeping no element leaves nothing. */
  lemma {:induction false} FilterKeepsNone<T(!new)>(s: seq<T>, keep: T -> bool)
    requires forall x :: x in s ==> !keep(x)
    ensures Filter(s, keep) == []
  {
    if s != [] {
      FilterKeepsNone(s[1..], keep);
    }
  }

  /** Filtering distributes over concatenation. */
  lemma {:induction false} FilterConcat<T(!new)>(a: seq<T>, b: seq<T>, keep: T -> bool)
    ensures Filter(a + b, keep) == Filter(a, keep) + Filter(b, keep)
  {
    if a == [] {
      assert a + b == b;
    } else {
      assert (a + b)[1..] == a[1..] + b;
      FilterConcat(a[1..], b, keep);
    }
  }

  function IdOf(p: Puzzle): int { p.id }

  /** Ascending by `order`: what the comparator `a.order - b.order` asks for. */
  ghost predicate SortedByOrder(s: seq<Puzzle>) {
    forall i, j :: 0 <= i < j < |s| ==> s[i].order <= s[j].order
  }

  /** `a` is listed before `b`: smaller order, or the same order and a smaller id. */
  predicate Before(a: Puzzle, b: Puzzle) {
    a.order < b.order || (a.order == b.order && a.id < b.id)
  }

  /** Strictly ascending by (order, id). */
  ghost predicate SortedByOrderThenId(s: seq<Puzzle>) {
    forall i, j :: 0 <= i < j < |s| ==> Before(s[i], s[j])
  }

  /**
   * Inserts `p` in front of the first element whose order is not smaller; `p`
   * stands for an element that came earlier in the input than all of `s`, so it
   * goes before the elements of equal order (which is what makes the sort stable).
   */
  function InsertByOrder(p: Puzzle, s: seq<Puzzle>): (r: seq<Puzzle>)
    ensures multiset(r) == multiset(s) + multiset{p}
    ensures |r| == |s| + 1
  {
    if s == [] || p.order <= s[0].order then [p] + s
    else
      assert s == [s[0]] + s[1..];
      [s[0]] + InsertByOrder(p, s[1..])
  }

  /** Every element of `InsertByOrder(p, s)` is `p` or an element of `s`. */
  lemma InsertedElements(p: Puzzle, s: seq<Puzzle>)
    ensures forall x :: x in InsertByOrder(p, s) ==> x == p || x in s
  {
    var r := InsertByOrder(p, s);
    forall x | x in r ensures x == p || x in s {
      assert x in multiset(r);
      assert x in multiset(s) || x == p;
    }
  }

  lemma {:induction false} InsertSorted(p: Puzzle, s: seq<Puzzle>)
    requires SortedByOrder(s)
    ensures SortedByOrder(InsertByOrder(p, s))
  {
    if s == [] || p.order <= s[0].order {
      var r := [p] + s;
      forall i, j | 0 <= i < j < |r| ensures r[i].order <= r[j].order {
        if i == 0 {
          assert r[j] == s[j - 1];
          assert s[0].order <= s[j - 1].order by {
            if j - 1 > 0 { assert s[0].order <= s[j - 1].order; }
          }
        }
      }
    } else {
      InsertSorted(p, s[1..]);
      var rest := InsertByOrder(p, s[1..]);
      InsertedElements(p, s[1..]);
      forall x | x in rest ensures s[0].order <= x.order {
        if x != p {
          var k :| 0 <= k < |s[1..]| && s[1..][k] == x;
          assert s[k + 1] == x;
        }
      }
      var r := [s[0]] + rest;
      forall i, j | 0 <= i < j < |r| ensures r[i].order <= r[j].order {
        if i == 0 {
          assert r[j] == rest[j - 1] && r[j] in rest;
        }
      }
    }
  }

  /** The stable sort by `order` (an insertion sort from the back of the list). */
  function SortByOrder(s: seq<Puzzle>): (r: seq<Puzzle>)
    ensures multiset(r) == multiset(s)
    ensures |r| == |s|
    ensures SortedByOrder(r)
  {
    if s == [] then []
    else
      assert s == [s[0]] + s[1..];
      InsertSorted(s[0], SortByOrder(s[1..]));
      InsertByOrder(s[0], SortByOrder(s[1..]))
  }

  lemma {:induction false} InsertStable(p: Puzzle, s: seq<Puzzle>)
    requires SortedByOrderThenId(s)
    requires forall x :: x in s ==> p.id < x.id
    ensures SortedByOrderThenId(InsertByOrder(p, s))
  {
    if s == [] || p.order <= s[0].order {
      var r := [p] + s;
      forall i, j | 0 <= i < j < |r| ensures Before(r[i], r[j]) {
        if i == 0 {
          assert s[0].order <= s[j - 1].order by {
            if j - 1 > 0 { assert Before(s[0], s[j - 1]); }
          }
          assert r[j] == s[j - 1] && p.id < s[j - 1].id;
        }
      }
    } else {
      assert s == [s[0]] + s[1..];
      InsertStable(p, s[1..]);
      var rest := InsertByOrder(p, s[1..]);
      var r := [s[0]] + rest;
      InsertedElements(p, s[1..]);
      forall x | x in rest ensures Before(s[0], x) {
        if x != p {
          var k :| 0 <= k < |s[1..]| && s[1..][k] == x;
          assert s[k + 1] == x;
        }
      }
      forall i, j | 0 <= i < j < |r| ensures Before(r[i], r[j]) {
        if i == 0 {
          assert r[j] == rest[j - 1] && r[j] in rest;
        }
      }
    }
  }

  /**
   * Stability: sorting a list whose ids ascend (the store's insertion order)
   * keeps equal orders in id order.
   */
  lemma {:induction false} SortIsStable(s: seq<Puzzle>)
    requires Ascending(s, IdOf)
    ensures SortedByOrderThenId(SortByOrder(s))
  {
    if s != [] {
      assert Ascending(s[1..], IdOf);
      SortIsStable(s[1..]);
      var sorted := SortByOrder(s[1..]);
      forall x | x in sorted ensures s[0].id < x.id {
        assert x in multiset(sorted);
        var k :| 0 <= k < |s[1..]| && s[1..][k] == x;
        assert s[k + 1] == x;
      }
      InsertStable(s[0], sorted);
    }
  }

  /** A list already ascending by order is left as it is. */
  lemma {:induction false} SortKeepsSorted(s: seq<Puzzle>)
    requires SortedByOrder(s)
    ensures SortByOrder(s) == s
  {
    if s != [] {
      SortKeepsSorted(s[1..]);
      assert s == [s[0]] + s[1..];
    }
  }

  /** `if (difficulty)`: JavaScript truthiness of an optional string. */
  predicate FiltersOn(difficulty: Option<string>) {
    difficulty.Some? && difficulty.value != ""
  }

  /** The filter callback `puzzle => puzzle.difficulty === d`. */
  function TierIs(d: string): Puzzle -> bool {
    (p: Puzzle) => p.difficulty == d
  }

  /** The tier filter of the listing (identity when the filter is off). */
  function OfTier(all: seq<Puzzle>, difficulty: Option<string>): (r: seq<Puzzle>)
    ensures forall p :: p in r <==> p in all && (FiltersOn(difficulty) ==> p.difficulty == difficulty.value)
    ensures !FiltersOn(difficulty) ==> r == all
    ensures |r| <= |all|
  {
    if FiltersOn(difficulty) then
      Filter(all, TierIs(difficulty.value))
    else all
  }

  /** An element occurs in a permutation of `s` exactly when it occurs in `s`. */
  lemma SameElements(r: seq<Puzzle>, s: seq<Puzzle>)
    requires multiset(r) == multiset(s)
    ensures forall x :: x in r <==> x in s
  {
    forall x ensures x in r <==> x in s {
      assert x in r <==> x in multiset(r);
      assert x in s <==> x in multiset(s);
    }
  }

  /**
   * The listing of `getPuzzles(difficulty)` over the store's values in
   * insertion order: exactly the puzzles of the tier (all of them without a
   * tier), ascending by order, and by id among equal orders.
   */
  function ListPuzzles(all: seq<Puzzle>, difficulty: Option<string>): (r: seq<Puzzle>)
    ensures forall p :: p in r <==> p in all && (FiltersOn(difficulty) ==> p.difficulty == difficulty.value)
    ensures Ascending(all, IdOf) ==> SortedByOrderThenId(r)
    ensures |r| <= |all|
  {
    var kept := OfTier(all, difficulty);
    ListingStable(all, difficulty);
    SameElements(SortByOrder(kept), kept);
    SortByOrder(kept)
  }

  lemma ListingStable(all: seq<Puzzle>, difficulty: Option<string>)
    ensures Ascending(all, IdOf) ==> SortedByOrderThenId(SortByOrder(OfTier(all, difficulty)))
  {
    if Ascending(all, IdOf) {
      OfTierAscending(all, difficulty);
      SortIsStable(OfTier(all, difficulty));
    }
  }

  lemma OfTierAscending(all: seq<Puzzle>, difficulty: Option<string>)
    requires Ascending(all, IdOf)
    ensures Ascending(OfTier(all, difficulty), IdOf)
  {
    if FiltersOn(difficulty) {
      FilterKeepsAscending(all, TierIs(difficulty.value), IdOf);
    }
  }
}
