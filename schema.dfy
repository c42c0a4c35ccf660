/**
 * The two record shapes of the application: a puzzle of the catalogue and a
 * progress row of an anonymous session, each with the shape it has before the
 * store assigns it an id.
 */
module Schema {
  import opened Wrappers

  /** A puzzle as stored: `difficulty` is free text ("easy", "medium", "hard" by convention). */
  datatype Puzzle = Puzzle(
    id: int,
    difficulty: string,
    instructions: string,
    text: string,
    solution: string,
    hint: string,
    order: int)

  /** A puzzle before the store gives it an id. */
  datatype InsertPuzzle = InsertPuzzle(
    difficulty: string,
    instructions: string,
    text: string,
    solution: string,
    hint: string,
    order: int)

  /** A progress row; `userId` is nullable and never set by this application. */
  datatype Progress = Progress(
    id: int,
    userId: Option<int>,
    puzzleId: int,
    completed: bool,
    sessionId: string)

  /** A progress row before the store gives it an id; `userId` and `completed` may be omitted. */
  datatype InsertProgress = InsertProgress(
    userId: Option<int>,
    puzzleId: int,
    completed: Option<bool>,
    sessionId: string)

  /** The record `{ ...insert, id }` that the store keeps for a new puzzle. */
  function PuzzleWithId(insert: InsertPuzzle, id: int): (p: Puzzle)
    ensures p.id == id && p.difficulty == insert.difficulty && p.order == insert.order
    ensures p.instructions == insert.instructions && p.text == insert.text
    ensures p.solution == insert.solution && p.hint == insert.hint
  {
    Puzzle(id, insert.difficulty, insert.instructions, insert.text, insert.solution, insert.hint, insert.order)
  }
}
