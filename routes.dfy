/**
 * The decision logic of two request handlers over the store: the progress
 * upsert of `POST /api/progress` and the lookup of `GET /api/puzzles/:id`.
 * Request parsing and validation are done before these run (the body has
 * already passed its schema), and responses are a status code and a record.
 */
module Routes {
  import opened Wrappers
  import opened Schema
  import opened Listing
  import opened Storage

  const StatusOk: int := 200
  const StatusCreated: int := 201
  const StatusBadRequest: int := 400
  const StatusNotFound: int := 404

  /** A validated upsert request; `completed` may be omitted and then defaults to false. */
  datatype ProgressBody = ProgressBody(puzzleId: int, sessionId: string, completed: Option<bool>)

  /** `rows[i]` is the first row of `rows` for the puzzle. */
  ghost predicate FirstFor(rows: seq<Progress>, i: int, puzzleId: int) {
    && 0 <= i < |rows|
    && rows[i].puzzleId == puzzleId
    && forall j :: 0 <= j < i ==> rows[j].puzzleId != puzzleId
  }

  /**
   * `rows.find(p => p.puzzleId === puzzleId)`: the first row for the puzzle,
   * or nothing when there is none.
   */
  function FindForPuzzle(rows: seq<Progress>, puzzleId: int): (r: Option<Progress>)
    ensures r.None? <==> forall x :: x in rows ==> x.puzzleId != puzzleId
    ensures r.Some? ==> exists i :: FirstFor(rows, i, puzzleId) && rows[i] == r.value
  {
    if rows == [] then None
    else if rows[0].puzzleId == puzzleId then
      assert FirstFor(rows, 0, puzzleId);
      Some(rows[0])
    else
      var r := FindForPuzzle(rows[1..], puzzleId);
      assert r.Some? ==> exists i :: FirstFor(rows, i, puzzleId) && rows[i] == r.value by {
        if r.Some? {
          var i :| FirstFor(rows[1..], i, puzzleId) && rows[1..][i] == r.value;
          assert FirstFor(rows, i + 1, puzzleId) by {
            forall j | 0 <= j < i + 1 ensures rows[j].puzzleId != puzzleId {
              if j > 0 { assert rows[j] == rows[1..][j - 1]; }
            }
          }
        }
      }
      assert forall x :: x in rows <==> x == rows[0] || x in rows[1..] by {
        assert rows == [rows[0]] + rows[1..];
      }
      r
  }

  /** The ids of the rows stored for the pair (session, puzzle). */
  ghost function RowsFor(progress: map<int, Progress>, sessionId: string, puzzleId: int): set<int> {
    set k | k in progress && progress[k].sessionId == sessionId && progress[k].puzzleId == puzzleId
  }

  /**
   * Replacing a row by one for the same pair leaves the pair's rows as they
   * are; a row of the pair itself was already counted.
   */
  lemma RowsForReplace(progress: map<int, Progress>, k: int, v: Progress, sessionId: string, puzzleId: int)
    requires k in progress
    requires v.sessionId == progress[k].sessionId && v.puzzleId == progress[k].puzzleId
    ensures RowsFor(progress[k := v], sessionId, puzzleId) == RowsFor(progress, sessionId, puzzleId)
    ensures v.sessionId == sessionId && v.puzzleId == puzzleId ==>
      RowsFor(progress[k := v], sessionId, puzzleId) == RowsFor(progress, sessionId, puzzleId) + {k}
  {
  }

  /** Adding a row for the pair under a new key adds exactly that key. */
  lemma RowsForAdd(progress: map<int, Progress>, k: int, v: Progress, sessionId: string, puzzleId: int)
    requires k !in progress
    requires v.sessionId == sessionId && v.puzzleId == puzzleId
    ensures RowsFor(progress[k := v], sessionId, puzzleId) == RowsFor(progress, sessionId, puzzleId) + {k}
  {
  }

  /**
   * `POST /api/progress`: read the session's rows, take the first one for the
   * puzzle; if there is one, set its `completed` (default false) and answer
   * 200 with it; otherwise create a row with `userId` null and answer 201. The
   * 404 branch (the row vanished between the read and the update) cannot be
   * taken when requests run one after another.
   */
  method PostProgress(store: MemStorage, body: ProgressBody) returns (status: int, row: Option<Progress>)
    requires store.Valid()
    modifies store
    ensures store.Valid()
    ensures status != StatusNotFound && row.Some?
    ensures status == StatusOk || status == StatusCreated
    ensures row.value.id in store.progress && store.progress[row.value.id] == row.value
    ensures row.value.sessionId == body.sessionId && row.value.puzzleId == body.puzzleId
    ensures row.value.completed == body.completed.GetOr(false)
    ensures status == StatusOk <==> RowsFor(old(store.progress), body.sessionId, body.puzzleId) != {}
    ensures status == StatusOk ==>
      && row.value.id in old(store.progress)
      && FindForPuzzle(old(store.GetProgressBySessionId(body.sessionId)), body.puzzleId) ==
           Some(old(store.progress)[row.value.id])
      && row.value == old(store.progress)[row.value.id].(completed := body.completed.GetOr(false))
      && store.progress == old(store.progress)[row.value.id := row.value]
      && store.progressKeys == old(store.progressKeys)
      && store.progressIdCounter == old(store.progressIdCounter)
    ensures status == StatusCreated ==>
      && row.value == Progress(old(store.progressIdCounter), None, body.puzzleId, body.completed.GetOr(false), body.sessionId)
      && store.progress == old(store.progress)[row.value.id := row.value]
      && store.progressKeys == old(store.progressKeys) + [row.value.id]
      && store.progressIdCounter == old(store.progressIdCounter) + 1
    ensures RowsFor(store.progress, body.sessionId, body.puzzleId) ==
      RowsFor(old(store.progress), body.sessionId, body.puzzleId) + {row.value.id}
    ensures store.puzzles == old(store.puzzles) && store.puzzleKeys == old(store.puzzleKeys)
    ensures store.puzzleIdCounter == old(store.puzzleIdCounter)
  {
    var completed := body.completed.GetOr(false);
    var existingProgress := store.GetProgressBySessionId(body.sessionId);
    var matching := FindForPuzzle(existingProgress, body.puzzleId);
    ghost var before := store.progress;
    FirstRowStored(store, body.sessionId, body.puzzleId);
    if matching.Some? {
      var existing := matching.value;
      var updated := store.UpdateProgress(existing.id, completed);
      if updated.None? {
        status, row := StatusNotFound, None;
        return;
      }
      status, row := StatusOk, updated;
      RowsForReplace(before, existing.id, updated.value, body.sessionId, body.puzzleId);
    } else {
      var created := store.CreateProgress(InsertProgress(None, body.puzzleId, Some(completed), body.sessionId));
      status, row := StatusCreated, Some(created);
      RowsForAdd(before, created.id, created, body.sessionId, body.puzzleId);
    }
  }

  /**
   * The row the upsert finds among the session's rows is stored under its id
   * and belongs to the pair; when it finds none, the pair has no row at all.
   */
  lemma FirstRowStored(store: MemStorage, sessionId: string, puzzleId: int)
    requires store.Valid()
    ensures var found := FindForPuzzle(store.GetProgressBySessionId(sessionId), puzzleId);
      && (found.Some? ==> store.StoredProgress(found.value) && found.value.id in RowsFor(store.progress, sessionId, puzzleId))
      && (found.None? <==> RowsFor(store.progress, sessionId, puzzleId) == {})
  {
    var rows := store.GetProgressBySessionId(sessionId);
    var found := FindForPuzzle(rows, puzzleId);
    if found.Some? {
      assert found.value in rows;
    } else {
      forall k | k in RowsFor(store.progress, sessionId, puzzleId) ensures false {
        assert store.StoredProgress(store.progress[k]);
      }
    }
  }

  /**
   * Two identical upserts for a pair that has no row yet leave exactly one
   * row for it: the first creates it (201), the second updates it in place
   * (200) and answers with the same row.
   */
  method RepeatedPost(store: MemStorage, body: ProgressBody)
    returns (first: Progress, second: Progress, firstStatus: int, secondStatus: int)
    requires store.Valid()
    requires RowsFor(store.progress, body.sessionId, body.puzzleId) == {}
    modifies store
    ensures store.Valid()
    ensures firstStatus == StatusCreated && secondStatus == StatusOk
    ensures second == first
    ensures RowsFor(store.progress, body.sessionId, body.puzzleId) == {first.id}
    ensures store.progress[first.id] == first && first.completed == body.completed.GetOr(false)
  {
    var r1, r2;
    firstStatus, r1 := PostProgress(store, body);
    first := r1.value;
    ghost var between := store.progress;
    assert RowsFor(between, body.sessionId, body.puzzleId) == {first.id};
    secondStatus, r2 := PostProgress(store, body);
    second := r2.value;
    assert secondStatus == StatusOk;
    assert second.id in RowsFor(between, body.sessionId, body.puzzleId);
  }

  /**
   * `GET /api/puzzles/:id`: 400 when the id does not parse as a number, 404
   * when no puzzle has that id, otherwise 200 with the stored puzzle.
   * `parseInt` is a parameter (`None` stands for `NaN`).
   */
  method GetPuzzleRoute(store: MemStorage, rawId: string, parseInt: string -> Option<int>)
    returns (status: int, puzzle: Option<Puzzle>)
    requires store.Valid()
    ensures status == StatusBadRequest <==> parseInt(rawId).None?
    ensures status == StatusNotFound <==> parseInt(rawId).Some? && parseInt(rawId).value !in store.puzzles
    ensures status == StatusOk <==> puzzle.Some?
    ensures puzzle.Some? ==> puzzle.value == store.puzzles[parseInt(rawId).value]
    ensures puzzle.Some? ==> puzzle.value.id == parseInt(rawId).value
    ensures status in {StatusOk, StatusBadRequest, StatusNotFound}
  {
    var id := parseInt(rawId);
    if id.None? {
      return StatusBadRequest, None;
    }
    puzzle := store.GetPuzzleById(id.value);
    if puzzle.None? {
      return StatusNotFound, None;
    }
    status := StatusOk;
  }
}
