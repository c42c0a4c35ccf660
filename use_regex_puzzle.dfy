/**
 * The puzzle hook: the same answer-form state as the puzzle card, but the
 * preview is not computed by the input handler. An effect recomputes it
 * whenever the input or the puzzle text changes, so the shown preview always
 * belongs to the current input. Effects run after the state update that
 * triggers them, in declaration order (reset first, preview second), with the
 * values of the render that scheduled them.
 */
module PuzzleHook {
  import opened Wrappers
  import opened Schema
  import opened Grading

  /**
   * The preview fields after the shown puzzle changes from one with text
   * `oldText` to one with text `newText` while the input was `staleInput`. The
   * reset effect clears the preview and the error. In the same commit, if the
   * text changed, the preview effect runs on the new text with the input of
   * that render, still `staleInput`. The input reset to "" then triggers one
   * more preview run, with the empty input, when `staleInput` was not empty.
   */
  function PuzzleChangePreview(engine: Engine, staleInput: string, oldText: string, newText: string,
                               before: PreviewFields): (after: PreviewFields)
    ensures after.matchPreview == newText && !after.hasMatches
    ensures after.errorMessage == None || after.errorMessage == Some(InvalidPatternMessage)
  {
    var reset := before.(matchPreview := newText, hasMatches := false, errorMessage := None);
    var afterStale := if newText != oldText then LivePreview(engine, staleInput, newText, reset) else reset;
    if staleInput != "" then LivePreview(engine, "", newText, afterStale) else afterStale
  }

  /**
   * The error is cleared by a puzzle change except when the text changes and
   * the old input does not compile on the new text: the invalid-pattern message
   * then stays, next to an empty input.
   */
  lemma PuzzleChangeError(engine: Engine, staleInput: string, oldText: string, newText: string, before: PreviewFields)
    ensures PuzzleChangePreview(engine, staleInput, oldText, newText, before).errorMessage ==
      if newText != oldText && !IsBlank(staleInput) && engine.matchAll(staleInput, newText).None?
      then Some(InvalidPatternMessage) else None
  {
  }

  /**
   * The match count survives a puzzle change, except that an old input which
   * compiles on a changed text leaves its count of matches in the new text.
   */
  lemma PuzzleChangeCount(engine: Engine, staleInput: string, oldText: string, newText: string, before: PreviewFields)
    ensures PuzzleChangePreview(engine, staleInput, oldText, newText, before).matchCount ==
      if newText != oldText && !IsBlank(staleInput) && engine.matchAll(staleInput, newText).Some?
      then |engine.matchAll(staleInput, newText).value| else before.matchCount
  {
  }

  class RegexPuzzle {
    const engine: Engine
    var puzzle: Puzzle
    var regexInput: string
    var matchPreview: string
    var hasMatches: bool
    var isCorrect: Option<bool>
    var errorMessage: Option<string>
    var matchCount: nat
    var expectedCount: nat

    /** The four fields the preview effect writes. */
    function Preview(): PreviewFields
      reads this
    {
      PreviewFields(matchPreview, hasMatches, errorMessage, matchCount)
    }

    /**
     * The shown preview, match flag and count are what the preview effect
     * computes from the current input and text (the error message may instead
     * come from a failed check).
     */
    ghost predicate Synced()
      reads this
    {
      var live := LivePreview(engine, regexInput, puzzle.text, Preview());
      && live.matchPreview == matchPreview
      && live.hasMatches == hasMatches
      && live.matchCount == matchCount
    }

    ghost predicate Valid()
      reads this
    {
      && Synced()
      && (hasMatches ==> matchCount > 0)
    }

    /**
     * The state after the first render and its effects: the reset effect
     * writes the initial values again and the preview effect sees a blank input.
     */
    constructor (engine: Engine, puzzle: Puzzle)
      ensures Valid()
      ensures this.engine == engine && this.puzzle == puzzle
      ensures regexInput == "" && matchPreview == puzzle.text && !hasMatches
      ensures isCorrect == None && errorMessage == None
      ensures matchCount == 0 && expectedCount == 0
    {
      this.engine := engine;
      this.puzzle := puzzle;
      regexInput := "";
      matchPreview := puzzle.text;
      hasMatches := false;
      isCorrect := None;
      errorMessage := None;
      matchCount := 0;
      expectedCount := 0;
      assert IsBlank("");
    }

    method SetPreview(p: PreviewFields)
      modifies this
      ensures Preview() == p
      ensures puzzle == old(puzzle) && regexInput == old(regexInput)
      ensures isCorrect == old(isCorrect) && expectedCount == old(expectedCount)
    {
      matchPreview, hasMatches, errorMessage, matchCount := p.matchPreview, p.hasMatches, p.errorMessage, p.matchCount;
    }

    /**
     * `setRegexInput(value)`: setting the value the input already has changes
     * nothing; a new value is stored and the preview effect runs on it.
     */
    method SetRegexInput(value: string)
      requires Valid()
      modifies this
      ensures Valid()
      ensures regexInput == value
      ensures value == old(regexInput) ==> Preview() == old(Preview())
      ensures value != old(regexInput) ==> Preview() == LivePreview(engine, value, puzzle.text, old(Preview()))
      ensures puzzle == old(puzzle) && isCorrect == old(isCorrect) && expectedCount == old(expectedCount)
    {
      if value == regexInput {
        return;
      }
      regexInput := value;
      var after := LivePreview(engine, value, puzzle.text, Preview());
      SetPreview(after);
      LivePreviewIdempotent(engine, value, puzzle.text, old(Preview()));
    }

    /**
     * "Give up" only sets the input to the solution; the preview effect then
     * shows the solution's own live preview.
     */
    method HandleGiveUp()
      requires Valid()
      modifies this
      ensures Valid()
      ensures regexInput == puzzle.solution
      ensures puzzle.solution != old(regexInput) ==>
        Preview() == LivePreview(engine, puzzle.solution, puzzle.text, old(Preview()))
      ensures puzzle.solution == old(regexInput) ==> Preview() == old(Preview())
      ensures puzzle == old(puzzle) && isCorrect == old(isCorrect) && expectedCount == old(expectedCount)
    {
      SetRegexInput(puzzle.solution);
    }

    /**
     * The shown puzzle changes to `p`: the reset effect clears the input, the
     * verdict, the error and the preview; the preview effect runs as described
     * by `PuzzleChangePreview`. The expected count is kept.
     */
    method ChangePuzzle(p: Puzzle)
      requires Valid()
      modifies this
      ensures Valid()
      ensures puzzle == p && regexInput == "" && isCorrect == None
      ensures Preview() == PuzzleChangePreview(engine, old(regexInput), old(puzzle.text), p.text, old(Preview()))
      ensures expectedCount == old(expectedCount)
    {
      var staleInput, oldText := regexInput, puzzle.text;
      puzzle := p;
      regexInput := "";
      isCorrect := None;
      var reset := Preview().(matchPreview := p.text, hasMatches := false, errorMessage := None);
      var afterStale := if p.text != oldText then LivePreview(engine, staleInput, p.text, reset) else reset;
      var after := if staleInput != "" then LivePreview(engine, "", p.text, afterStale) else afterStale;
      SetPreview(after);
    }

    /**
     * Submitting the form. A blank input changes nothing. A pattern that does
     * not compile (the user's or the solution's) sets the verdict to wrong with
     * the check-failed message. A graded submission records the solution's
     * match count and the verdict, and a correct verdict with a session fires
     * the completion request (`post`), whose outcome does not reach this state.
     */
    method CheckAnswer(sessionId: Option<string>) returns (post: Option<ProgressPost>)
      requires Valid()
      modifies this
      ensures Valid()
      ensures puzzle == old(puzzle) && regexInput == old(regexInput)
      ensures matchPreview == old(matchPreview) && hasMatches == old(hasMatches) && matchCount == old(matchCount)
      ensures IsBlank(regexInput) ==>
        post.None? && isCorrect == old(isCorrect) && errorMessage == old(errorMessage) && expectedCount == old(expectedCount)
      ensures !IsBlank(regexInput) && Grade(engine, regexInput, puzzle.solution, puzzle.text).CheckFailed? ==>
        && post.None?
        && isCorrect == Some(false) && errorMessage == Some(CheckFailedMessage)
        && expectedCount == old(expectedCount)
      ensures !IsBlank(regexInput) && Grade(engine, regexInput, puzzle.solution, puzzle.text).Graded? ==>
        var v := Grade(engine, regexInput, puzzle.solution, puzzle.text);
        && expectedCount == v.expectedCount
        && isCorrect == Some(v.isCorrect) && errorMessage == old(errorMessage)
        && post == CompletionPost(puzzle, sessionId, v.isCorrect)
    {
      post := None;
      if IsBlank(regexInput) {
        return;
      }
      var v := Grade(engine, regexInput, puzzle.solution, puzzle.text);
      if v.CheckFailed? {
        errorMessage := Some(CheckFailedMessage);
        isCorrect := Some(false);
        return;
      }
      expectedCount := v.expectedCount;
      isCorrect := Some(v.isCorrect);
      post := CompletionPost(puzzle, sessionId, v.isCorrect);
    }
  }

  /**
   * Giving up and then checking is graded correct whenever the solution is a
   * non-blank pattern that compiles; the preview then shows the solution's matches.
   */
  method GiveUpThenCheck(hook: RegexPuzzle, sessionId: Option<string>) returns (post: Option<ProgressPost>)
    requires hook.Valid()
    requires !IsBlank(hook.puzzle.solution) && hook.engine.matchAll(hook.puzzle.solution, hook.puzzle.text).Some?
    modifies hook
    ensures hook.Valid()
    ensures hook.puzzle == old(hook.puzzle) && hook.regexInput == hook.puzzle.solution
    ensures hook.isCorrect == Some(true)
    ensures hook.hasMatches <==> |hook.engine.matchAll(hook.puzzle.solution, hook.puzzle.text).value| > 0
    ensures hook.matchCount == hook.expectedCount
    ensures post == CompletionPost(hook.puzzle, sessionId, true)
  {
    hook.HandleGiveUp();
    GradeReflexive(hook.engine, hook.puzzle.solution, hook.puzzle.text);
    post := hook.CheckAnswer(sessionId);
  }
}
