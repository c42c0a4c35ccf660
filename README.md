# Regex Explorer — a verified model of its core

Regex Explorer is a small puzzle application. Each puzzle shows a text and asks
for a regular expression that finds particular pieces of it. This project
models the parts of the application that decide things:

- **The in-memory record store** (`Storage.MemStorage`). It has two id-keyed
  tables, puzzles and progress rows, each with a counter that only grows.
  - It seeds sixty puzzles: twenty each of "easy", "medium" and "hard",
    numbered 1..20 by `order` inside each tier.
  - It lists puzzles filtered by tier and stably sorted by `order`.
  - It creates and updates records.
- **Two request handlers** over the store (`Routes`).
  - The progress upsert of `POST /api/progress`.
  - The id lookup of `GET /api/puzzles/:id`.
- **Grading** (`Grading`):
  - `String.prototype.trim` blankness, over the exact ECMAScript whitespace
    code points;
  - the verdict that compares the user's matches with the solution's;
  - the grading of a submission;
  - the live-preview rule;
  - the completion request a correct verdict sends.
- **The puzzle card** (`Card.PuzzleCard`) and **the puzzle hook**
  (`PuzzleHook.RegexPuzzle`). Each is the state of one answer form, changed by
  typing, checking, giving up and switching puzzles.
- **The progress tracker** (`Tracker`): the completed-puzzle map and the
  status of each numbered circle.
- **The home page's navigation** (`HomePage.Home`): the selected tier and the
  index of the shown puzzle.
- **The difficulty label** (`Labels.DifficultyLabel`).

The regular-expression engine is not modelled. It appears only through its
results, as an `Engine` value:

- `matchAll(pattern, text)` is `None` when `new RegExp(pattern, 'g')` throws,
  and otherwise the list of matches.
- `highlight(pattern, text)` is the highlighted text, treated as an opaque
  string.

A JavaScript `Map` is modelled as a Dafny `map` plus the sequence of its keys
in insertion order. `values()` iterates in that order, and `set` on a key
that is already present keeps its place.

**Puzzle changes in the hook.** The hook recomputes its preview in an effect
that depends on the input and on the puzzle text. When the shown puzzle
changes, React runs the effects in this order:

1. The reset effect runs first.
2. If the text changed, the preview effect runs on the new text. It still
   sees the input of the render that scheduled it, which is the old input.
3. The input reset to `""` makes the preview effect run once more, this time
   with the empty input.

Two consequences follow.

- An old input that does not compile on the new text leaves the
  invalid-pattern message on screen next to an empty input
  (`PuzzleHook.PuzzleChangeError`).
- An old input that does compile leaves its match count in the new text
  (`PuzzleHook.PuzzleChangeCount`).

The model keeps this behaviour as the code has it.

## Model

| member | source | states |
|---|---|---|
| Schema.PuzzleWithId | server/storage.ts:50 | The record kept for a new puzzle carries the given id, and the insert's tier, order, instructions, text, solution and hint. |
| Listing.Filter | server/storage.ts:38 | An element is in the result iff it is in the input and passes the test; the result is never longer than the input. |
| Listing.FilterKeepsAscending | server/storage.ts:38 | Filtering keeps the relative order of what it keeps, so a list with ascending keys stays ascending. |
| Listing.FilterKeepsAll | server/storage.ts:38 | A filter that every element passes returns the list unchanged. |
| Listing.FilterKeepsNone | server/storage.ts:38 | A filter that no element passes returns the empty list. |
| Listing.FilterConcat | server/storage.ts:38 | Filtering a concatenation is the concatenation of the filtered parts. |
| Listing.InsertByOrder | server/storage.ts:39 | Inserting one element gives a list that is the old list plus that element, as a multiset. |
| Listing.InsertedElements | server/storage.ts:39 | Every element of an insertion is the new element or an old one. |
| Listing.InsertSorted | server/storage.ts:39 | Inserting into a list sorted by `order` keeps it sorted. |
| Listing.SortByOrder | server/storage.ts:39-41 | The sort by `order` returns a permutation of its input that is ascending by `order`. |
| Listing.InsertStable | server/storage.ts:39-41 | Inserting an element with a smaller id than all others puts it before elements of equal order, keeping the (order, id) ordering. |
| Listing.SortIsStable | server/storage.ts:36-41 | Sorting a list whose ids ascend (insertion order) gives a list strictly ascending by (order, id): ties keep id order. |
| Listing.SortKeepsSorted | server/storage.ts:39-41 | A list already ascending by order is returned unchanged. |
| Listing.SameElements | server/storage.ts:39-41 | A permutation has the same elements as the original. |
| Listing.ListPuzzles | server/storage.ts:35-42 | With a non-empty tier, the listing holds exactly the puzzles of that tier; otherwise it holds all of them. Over an id-ascending input it is ascending by (order, id). |
| Listing.ListingStable | server/storage.ts:36-41 | The filtered and sorted listing of an id-ascending list is ascending by (order, id). |
| Listing.OfTier | server/storage.ts:37-38 | A puzzle survives the tier filter iff it is in the list and, when a non-empty difficulty is given, has that difficulty. Without a filter the list is unchanged, and filtering never lengthens the list. |
| Listing.OfTierAscending | server/storage.ts:37-38 | The tier filter keeps ids ascending. |
| Catalog.TierName | server/storage.ts:84-632 | Each tier number is named by one of the three tier names. |
| Catalog.TierNamesInOrder | server/storage.ts:84-632 | Tiers 0, 1 and 2 are named "easy", "medium" and "hard", in creation order, each iff it is that tier, so distinct tiers have distinct names. |
| Catalog.TierOf | server/storage.ts:84-632 | Catalogue position i (0..59) lies in tier t < 3, the block of positions 20t .. 20t+19. |
| Catalog.Seed | server/storage.ts:84-632 | The i-th seeded puzzle belongs to tier i/20 and has order i mod 20 + 1, between 1 and 20. |
| Catalog.TierBlock | server/storage.ts:84-632 | Tier t of the catalogue is twenty puzzles, ids 20t+1 .. 20t+20 in creation order. |
| Catalog.SeededValues | server/storage.ts:84-632 | The seeded store holds sixty puzzles, and the one at position i has id i+1. |
| Catalog.SeededFacts | server/storage.ts:84-632 | Each seeded puzzle's id, tier and order depend only on its id, with order between 1 and 20. |
| Catalog.SeededValuesBlocks | server/storage.ts:84-632 | The catalogue is the easy block, then the medium block, then the hard block. |
| Catalog.SeededValuesAscending | server/storage.ts:84-632 | The seeded puzzles are in ascending id order. |
| Catalog.BlockFilter | server/storage.ts:38 | The filter on tier t keeps block t whole and drops every other block. |
| Catalog.TierFilter | server/storage.ts:38 | Filtering the whole catalogue on tier t leaves exactly block t. |
| Catalog.TierBlockSorted | server/storage.ts:84-632 | Each block is already sorted, with orders exactly 1, 2, ..., 20. |
| Catalog.SeededTierListing | server/storage.ts:35-42 | Listing one tier of the seeded store gives its twenty puzzles, all of that tier, with orders 1..20 in order. |
| Catalog.FirstThree | server/storage.ts:39-41 | In a list ordered by (order, id), three elements that come before everything else are its first three. |
| Catalog.SortedIndexOrder | server/storage.ts:39-41 | In a list ordered by (order, id), an element that comes before another in that ordering sits at a smaller index. |
| Catalog.OnlyThreeFirsts | server/storage.ts:84-632 | Only puzzles 1, 21 and 41 have order 1 in the catalogue. |
| Catalog.SeededFullListingStart | server/storage.ts:35-42 | The unfiltered listing has sixty puzzles and starts with puzzles 1, 21 and 41: the order-1 puzzles in id order. |
| Storage.ValuesInOrder | server/storage.ts:36 | `Array.from(map.values())` lists the value of each key in insertion order. |
| Storage.SeededTableContents | server/storage.ts:84-633 | After the first n seeding calls on an empty store, the table holds exactly ids 1..n, each under its catalogue puzzle. |
| Storage.SeededTableValues | server/storage.ts:84-633 | A table holding ids 1..60 under their catalogue puzzles, listed in key order 1..60, lists the catalogue in creation order. |
| Storage.MemStorage.PuzzleValues | server/storage.ts:36 | The puzzle values are exactly the stored puzzles, in ascending id order. |
| Storage.MemStorage.ProgressValues | server/storage.ts:57 | The progress values are exactly the stored rows, in ascending id order. |
| Storage.MemStorage.constructor | server/storage.ts:24-32 | A new store holds puzzles 1..60, each being the seeded puzzle with that id, and the puzzle counter is 61. The progress table is empty, with counter 1, and the store invariant holds. |
| Storage.MemStorage.InitializePuzzles | server/storage.ts:84-633 | Seeding the empty puzzle table creates the sixty catalogue puzzles under ids 1..60, with the keys in that order and the counter at 61. The progress table is not touched. |
| Storage.MemStorage.SeedNext | server/storage.ts:84-633 | One seeding call stores catalogue entry i under id i+1, appends that key and raises the counter; the progress table is not touched. |
| Storage.SeededStoreListings | server/storage.ts:24-42 | A new store's unfiltered listing has sixty puzzles and starts with puzzles 1, 21 and 41. Each tier's listing is its twenty puzzles, of that tier, with orders 1..20. |
| Storage.MemStorage.GetPuzzles | server/storage.ts:35-42 | With a non-empty tier, returns exactly the stored puzzles of that tier; otherwise all stored puzzles. The result is ascending by order, with ids ascending among equal orders. |
| Storage.MemStorage.GetPuzzleById | server/storage.ts:44-46 | Returns a puzzle iff the id is stored, and that puzzle carries the id. |
| Storage.MemStorage.CreatePuzzle | server/storage.ts:48-53 | Stores the input under the old counter, an id not in use, and raises the counter by exactly one. Every other puzzle and the progress table are unchanged. |
| Storage.MemStorage.GetProgressBySessionId | server/storage.ts:56-59 | Returns exactly the stored rows of the session, in ascending id order. |
| Storage.ProgressWithId | server/storage.ts:63-68 | The stored row has the given id and the request's puzzle, session and user ids. It is completed iff the request said `completed: true`, so an absent flag means not completed. |
| Storage.MemStorage.CreateProgress | server/storage.ts:61-72 | Stores the row under a fresh id, with `userId` null and `completed` false when absent, and raises the counter by one. Nothing else changes. |
| Storage.MemStorage.UpdateProgress | server/storage.ts:74-81 | On an unknown id, returns nothing and changes nothing. Otherwise only that row's `completed` changes, in place; ids, keys, counters and other rows are kept. |
| Routes.FindForPuzzle | server/routes.ts:61 | `find` returns nothing iff no row is for the puzzle; otherwise it returns the first such row. |
| Routes.RowsForReplace | server/routes.ts:65 | Updating a row in place leaves the set of rows for its (session, puzzle) pair unchanged; the updated row's id was already one of them. |
| Routes.FirstRowStored | server/routes.ts:60-61 | The row the upsert finds among the session's rows is stored under its id and belongs to the (session, puzzle) pair. It finds none iff the pair has no row. |
| Routes.RowsForAdd | server/routes.ts:72-77 | Creating a row for a pair adds exactly its id to that pair's rows. |
| Routes.PostProgress | server/routes.ts:49-87 | The upsert answers 200 iff a row exists for (session, puzzle). It then updates the first such row in place (`completed` defaults to false). Otherwise it creates one row with `userId` null and answers 201. It never answers 404, and puzzles are untouched. |
| Routes.RepeatedPost | server/routes.ts:59-79 | Two identical upserts for a pair without rows answer 201, then 200 with the same row. Exactly one row is left for the pair. |
| Routes.GetPuzzleRoute | server/routes.ts:19-35 | Answers 400 iff the id does not parse, and 404 iff it parses to an unknown id. Otherwise it answers 200 with the stored puzzle of that id. |
| Grading.TrimStartAll | client/src/components/PuzzleCard.tsx:45 | Stripping leading whitespace leaves nothing iff the string is all whitespace. |
| Grading.TrimStartNonWhite | client/src/components/PuzzleCard.tsx:45 | What `trim` keeps at the start is not whitespace. |
| Grading.TrimEndNonEmpty | client/src/components/PuzzleCard.tsx:45 | Stripping trailing whitespace from a string that starts with a non-space leaves it non-empty, with the same first character. |
| Grading.TrimEmptyIffAllWhitespace | client/src/components/PuzzleCard.tsx:45 | `s.trim()` is empty iff every character of `s` is ECMAScript whitespace or a line terminator (so also for ""). |
| Grading.IsBlank | client/src/components/PuzzleCard.tsx:45 | `!s.trim()` holds iff every character of `s` is ECMAScript whitespace or a line terminator (so also for ""). |
| Grading.TrimIsInnerPiece | client/src/components/PuzzleCard.tsx:45 | `s.trim()` is the contiguous piece of `s` that begins where leading whitespace ends, and it neither starts nor ends with whitespace. |
| Grading.TrimEndNonWhite | client/src/components/PuzzleCard.tsx:45 | What `trim` keeps at the end is not whitespace. |
| Grading.IsMatchCorrect | client/src/components/PuzzleCard.tsx:97-100 | The verdict holds iff the two match lists have equal length and the same set of values. |
| Grading.VerdictReflexive | client/src/components/PuzzleCard.tsx:97-100 | Any match list is graded correct against itself. |
| Grading.VerdictSymmetric | client/src/components/PuzzleCard.tsx:97-100 | Swapping the user's and the solution's matches does not change the verdict. |
| Grading.VerdictIgnoresOrder | client/src/components/PuzzleCard.tsx:97-100 | Reordering the user's matches does not change the verdict. |
| Grading.SameMultisetIsCorrect | client/src/components/PuzzleCard.tsx:97-100 | Match lists that are permutations of each other are graded correct. |
| Grading.CorrectIsNotSameMultiset | client/src/components/PuzzleCard.tsx:97-100 | ["a","a","b"] against ["a","b","b"] is graded correct though the multiplicities differ. |
| Grading.SameCountDifferentValues | client/src/components/PuzzleCard.tsx:97-100 | Three "a" against three "ab" is graded wrong: equal counts are not enough. |
| Grading.Grade | client/src/components/PuzzleCard.tsx:84-102 | A submission is graded iff both the user's and the solution's pattern compile; otherwise the check fails. |
| Grading.GradeReflexive | client/src/components/PuzzleCard.tsx:84-102 | Submitting a compiling solution is graded correct, expecting its own number of matches. |
| Grading.GradeSymmetric | client/src/hooks/use-regex-puzzle.ts:102-120 | Swapping the submitted pattern and the solution keeps the verdict. |
| Grading.HasSession | client/src/components/PuzzleCard.tsx:107 | `if (sessionId)` holds iff a session id is stored and it is not the empty string (JavaScript truthiness; a blank id counts). |
| Grading.CompletionPost | client/src/components/PuzzleCard.tsx:105-117 | A completion request is sent iff the verdict is correct and a non-empty session id is stored. It carries the puzzle's id, the session and `completed: true`. |
| Grading.LivePreview | client/src/components/PuzzleCard.tsx:41-69 | After the preview, "has matches" holds iff the input is not blank, compiles, and has at least one match. "Has matches" always comes with a positive count. A blank input shows the plain text and keeps the error and the count. A pattern that does not compile sets the invalid-pattern message and keeps the preview and the count. A compiling pattern shows its highlight and its number of matches, and clears the error. |
| Grading.LivePreviewIdempotent | client/src/hooks/use-regex-puzzle.ts:48-73 | Running the preview twice on the same input and text gives the same fields as running it once. |
| Grading.EmptyInputPreview | client/src/components/PuzzleCard.tsx:45-49 | An input made only of whitespace, the empty input among them, shows the plain text and no matches; the error and the count are untouched. |
| Card.SolutionPreview | client/src/components/PuzzleCard.tsx:129-148 | If the solution compiles (blank or not), give-up shows its highlight and its number of matches, "has matches" holds iff there is at least one, and the earlier error stays. For a non-blank solution this is its live preview with the earlier error kept. If it does not compile, only the error changes, to the show-solution message. |
| Card.GiveUpKeepsStaleError | client/src/components/PuzzleCard.tsx:125-149 | An invalid-pattern message survives giving up, even when the solution has matches. |
| Card.PuzzleCard.constructor | client/src/components/PuzzleCard.tsx:22-28 | A new card has an empty input, the plain text, no matches, no verdict, no error and zero counts. |
| Card.PuzzleCard.ChangePuzzle | client/src/components/PuzzleCard.tsx:32-38 | Showing another puzzle resets the input, preview, match flag, verdict and error. Both counts are kept. |
| Card.PuzzleCard.HandleRegexInputChange | client/src/components/PuzzleCard.tsx:41-69 | Typing stores the value and sets the preview fields to its live preview over the puzzle text. The verdict and expected count are kept. |
| Card.PuzzleCard.CheckAnswer | client/src/components/PuzzleCard.tsx:72-122 | A blank input changes nothing. A failed compile gives "wrong" with the check-failed message. A graded answer records the expected count and the verdict, and sends the completion request only for a correct verdict with a session. A failed request turns the verdict to wrong with the message. `matchPreview`, `hasMatches` and `matchCount` are never written. |
| Card.PuzzleCard.HandleGiveUp | client/src/components/PuzzleCard.tsx:125-149 | The input becomes the solution and the preview becomes the solution preview. The verdict and expected count are kept. |
| Card.GiveUpThenCheck | client/src/components/PuzzleCard.tsx:72-149 | Giving up and then checking a non-blank, compiling solution records the solution's match count and sends the completion request iff a non-empty session id is stored. The answer is "correct" with the error unchanged, unless that request is sent and fails: then it is "wrong" with the check-failed message. |
| PuzzleHook.PuzzleChangePreview | client/src/hooks/use-regex-puzzle.ts:39-73 | After a puzzle change the preview is the plain new text with no matches. The only error that can remain is the invalid-pattern message. |
| PuzzleHook.PuzzleChangeError | client/src/hooks/use-regex-puzzle.ts:39-73 | The error is cleared by a puzzle change, except when the text changes and the old input does not compile on the new text. |
| PuzzleHook.PuzzleChangeCount | client/src/hooks/use-regex-puzzle.ts:39-73 | The match count survives a puzzle change. The exception: an old input that compiles on a changed text leaves its count of matches in the new text. |
| PuzzleHook.RegexPuzzle.constructor | client/src/hooks/use-regex-puzzle.ts:27-33 | The hook starts with an empty input, the plain text, no matches, no verdict, no error and zero counts, with the preview in step with the input. |
| PuzzleHook.RegexPuzzle.SetRegexInput | client/src/hooks/use-regex-puzzle.ts:48-73 | Setting the current value changes nothing. A new value is stored and the preview becomes its live preview. The preview stays in step with the input. |
| PuzzleHook.RegexPuzzle.HandleGiveUp | client/src/hooks/use-regex-puzzle.ts:140-147 | The input becomes the solution. If it differs from the old input, the preview becomes the solution's live preview. If it equals the old input, the preview effect does not run and the preview is unchanged (a stale error included). The verdict and expected count are kept. |
| PuzzleHook.RegexPuzzle.ChangePuzzle | client/src/hooks/use-regex-puzzle.ts:39-73 | A puzzle change clears the input and the verdict, keeps the expected count, and leaves the preview as `PuzzleChangePreview` gives it. |
| PuzzleHook.RegexPuzzle.CheckAnswer | client/src/hooks/use-regex-puzzle.ts:90-137 | Same rules as the card's check, except that the request's outcome never reaches the state. The completion request fires only for a correct verdict with a session. |
| PuzzleHook.GiveUpThenCheck | client/src/hooks/use-regex-puzzle.ts:90-147 | Giving up and then checking a compiling, non-blank solution yields "correct", with the shown match count equal to the expected count. |
| Tracker.CompletedMap | client/src/components/ProgressTracker.tsx:15-20 | The map's keys are exactly the puzzle ids of completed rows, and every entry is true. |
| Tracker.CompletedIdsSnoc | client/src/components/ProgressTracker.tsx:16-19 | One more row adds its puzzle id iff that row is completed. |
| Tracker.IncompleteRowsIgnored | client/src/components/ProgressTracker.tsx:17 | Rows with `completed` false contribute nothing. |
| Tracker.CompletedIdsOrderFree | client/src/components/ProgressTracker.tsx:16-19 | The set of completed puzzles does not depend on the order of the rows. |
| Tracker.CompletedIdsMonotone | client/src/components/ProgressTracker.tsx:16-19 | Later rows never un-mark a puzzle. |
| Tracker.StatusOf | client/src/components/ProgressTracker.tsx:31-35 | A circle is completed iff its puzzle is; it is current iff it is not completed and at the current index. |
| Tracker.Circles | client/src/components/ProgressTracker.tsx:26-39 | There is one circle per puzzle, keyed by its id and numbered i+1. It is completed iff some completed row names the puzzle, and current iff not completed and at the current index. |
| Tracker.AtMostOneCurrent | client/src/components/ProgressTracker.tsx:31-35 | Only the circle at the current index can be marked current. |
| Tracker.UnlistedRowsIgnored | client/src/components/ProgressTracker.tsx:26-35 | Rows for puzzles not in the list change no circle. |
| Tracker.Render | client/src/components/ProgressTracker.tsx:15-41 | The rendered circles are exactly `Circles` of the puzzles, rows and current index. |
| HomePage.NextIndex | client/src/pages/Home.tsx:43-47 | The index rises by exactly one iff the list is loaded and the index is before its last element; otherwise it stays. |
| HomePage.NextIndexInRange | client/src/pages/Home.tsx:43-47 | Stepping keeps the index in [0, max(n-1, 0)]. |
| HomePage.StepsFromStart | client/src/pages/Home.tsx:43-47 | k steps from the first puzzle reach index min(k, max(n-1, 0)). |
| HomePage.StepsWhileLoading | client/src/pages/Home.tsx:44 | Steps taken while the list has not arrived leave the index at 0. |
| HomePage.Home.constructor | client/src/pages/Home.tsx:11-12 | The page starts on "easy", at index 0. |
| HomePage.Home.HandleDifficultyChange | client/src/pages/Home.tsx:37-40 | Choosing a tier selects it and resets the index to 0. |
| HomePage.Home.HandleNextPuzzle | client/src/pages/Home.tsx:43-47 | The index becomes `NextIndex` of the old index, the tier is kept, and an index in range stays in range. |
| HomePage.Home.PuzzleNumber | client/src/pages/Home.tsx:70 | The number shown on the card is the index counted from 1, so at least 1 for any valid index. |
| HomePage.Home.CurrentPuzzle | client/src/pages/Home.tsx:50 | A puzzle is shown iff the list is loaded and the index is within it, and the shown puzzle is the list's element at the index. |
| HomePage.ShownWhenLoaded | client/src/pages/Home.tsx:50 | With the index in range, a non-empty loaded list shows the puzzle at the index, numbered between 1 and the list length. |
| Labels.DifficultyLabel | client/src/lib/puzzles.ts:36-47 | "easy", "medium" and "hard" become "Easy", "Medium" and "Hard", and any other string is returned as is. The output differs from the input iff the input is one of the three. |
| Labels.LabelIdempotent | client/src/lib/puzzles.ts:36-47 | Labelling a label changes nothing. |
| Labels.LabelsDistinct | client/src/lib/puzzles.ts:36-47 | The three tiers get distinct labels, and no label is itself a tier name. |

## Left out

- HTTP plumbing is not modelled: Express routing, zod parsing, JSON
  serialisation, the 500 answers, and the 400 answer for a body that fails its
  schema. `Routes` starts from an already-validated body.
- `GET /api/puzzles` and `GET /api/progress/:sessionId` only forward to the
  store, so they are covered by `GetPuzzles` and `GetProgressBySessionId`.
- The `async`/`Promise` wrappers in the store are dropped, because every
  operation completes synchronously.
- Concurrency is out of scope. Two simultaneous upserts could both create a
  row for the same pair, and the model runs requests one after another.
- The regex engine is an oracle (`Engine`): `new RegExp`, `match` and
  `replace`. The highlighted HTML is an opaque string, so backtracking, flags
  and catastrophic patterns are not modelled.
- Browser services are not modelled: toasts, `localStorage`, `nanoid` session
  creation, react-query fetching, and cache invalidation. The stored session
  id is a parameter (`Option<string>`).
- The outcome of the completion request in the card is a parameter
  (`postFails`). client/src/lib/queryClient.ts is not part of this model.
- The seeded puzzles' wording (instructions, text, solution, hint) is a
  parameter of the store's constructor. Only ids, tiers and orders are fixed.
- The sixty consecutive `createPuzzle` calls of the seeding are written as a
  loop over the catalogue.
- Storage.MemStorage.InitializePuzzles: stated for the empty puzzle table with
  counter 1 that the constructor, its only caller, hands it. Seeding a store
  that already holds puzzles is not modelled.
- JavaScript numbers are modelled as unbounded integers. A non-integer
  `puzzleId` accepted by `z.number()` is not modelled.
- `parseInt` is a parameter of `GetPuzzleRoute`; `None` stands for `NaN`.
- `handleNextPuzzle` in the card only calls the `onNextPuzzle` handler the page
  passes it, which is `HomePage.Home.HandleNextPuzzle`. The hook's
  `handleNextPuzzle` calls whatever callback its caller passes; no page of the
  application uses the hook, so that callback is not modelled.
- The puzzle list the home page shows is a parameter (`None` while loading).
  The refetch after a tier change is not modelled.
- `Card.PuzzleCard.ChangePuzzle`: the reset effect fires when the puzzle prop
  changes identity. Every call is treated as such a change.
- `PuzzleHook.RegexPuzzle.ChangePuzzle`: likewise, the hook's reset effect
  fires when the `puzzle` reference changes. Every call is treated as such a
  change.
- JavaScript strings are sequences of UTF-16 code units; the model uses
  sequences of Unicode scalar values, so a lone surrogate in a pattern or a
  puzzle text cannot be represented. Every ECMAScript whitespace character is a
  single code unit, so trimming and the comparison of match lists are not
  affected.
- `Engine`: `matchAll(pattern, text)` lets whether a pattern compiles depend on
  the text, while `new RegExp(pattern, 'g')` never sees the text. Every
  property holds for every engine, so none depends on this. But some cases
  that `PuzzleHook.PuzzleChangeError` describes cannot happen in the program:
  an old input that compiles on one text and not on the other.
- Purely presentational components are not modelled: documentation pages,
  header, footer, tier selector, hint card, result feedback, and the markup of
  the card and the tracker.
- `SAMPLE_PUZZLES` in client/src/lib/puzzles.ts is reference data and is not
  modelled.
