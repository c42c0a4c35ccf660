/**
 * The puzzle card: the state of one puzzle's answer form and its match
 * preview, and the handlers that change it — typing in the pattern field,
 * checking the answer, giving up, and the reset when another puzzle is shown.
 */
module Card {
  import opened Wrappers
  import opened Schema
  import opened Grading

  /**
   * The preview fields after "give up": the solution pattern is run without a
   * blankness test. When it compiles, the fields are those of its live preview
   * except that an earlier error message stays; when it does not, only the
   * error message changes.
   */
  function SolutionPreview(engine: Engine, solution: string, text: string, before: PreviewFields): (after: PreviewFields)
    ensures engine.matchAll(solution, text).Some? ==>
      && after.matchPreview == engine.highlight(solution, text)
      && (after.hasMatches <==> |engine.matchAll(solution, text).value| > 0)
      && after.matchCount == |engine.matchAll(solution, text).value|
      && after.errorMessage == before.errorMessage
    ensures engine.matchAll(solution, text).Some? && !IsBlank(solution) ==>
      after == LivePreview(engine, solution, text, before).(errorMessage := before.errorMessage)
    ensures engine.matchAll(solution, text).None? ==>
      after.errorMessage == Some(ShowSolutionFailedMessage) && after.(errorMessage := before.errorMessage) == before
    ensures (before.hasMatches ==> before.matchCount > 0) ==> (after.hasMatches ==> after.matchCount > 0)
  {
    match engine.matchAll(solution, text)
    case None => before.(errorMessage := Some(ShowSolutionFailedMessage))
    case Some(matches) => PreviewFields(engine.highlight(solution, text), |matches| > 0, before.errorMessage, |matches|)
  }

  /** Giving up does not clear an error left by an earlier invalid pattern, even when the solution has matches. */
  lemma GiveUpKeepsStaleError(engine: Engine, solution: string, text: string, before: PreviewFields)
    requires before.errorMessage == Some(InvalidPatternMessage)
    requires engine.matchAll(solution, text).Some? && |engine.matchAll(solution, text).value| > 0
    ensures SolutionPreview(engine, solution, text, before).hasMatches
    ensures SolutionPreview(engine, solution, text, before).errorMessage == Some(InvalidPatternMessage)
  {
  }

  /** The messages the card can show. */
  predicate IsCardMessage(m: string) {
    m == InvalidPatternMessage || m == CheckFailedMessage || m == ShowSolutionFailedMessage
  }

  class PuzzleCard {
    const engine: Engine
    var puzzle: Puzzle
    var regexInput: string
    var matchPreview: string
    var hasMatches: bool
    var isCorrect: Option<bool>
    var errorMessage: Option<string>
    var matchCount: nat
    var expectedCount: nat

    /** The four fields the preview writes. */
    function Preview(): PreviewFields
      reads this
    {
      PreviewFields(matchPreview, hasMatches, errorMessage, matchCount)
    }

    /** "Has matches" is only ever shown with a positive count, and any error is one of the card's messages. */
    ghost predicate Valid()
      reads this
    {
      && (hasMatches ==> matchCount > 0)
      && (errorMessage.Some? ==> IsCardMessage(errorMessage.value))
    }

    /** The card as first rendered for `puzzle`: empty input, the plain text, no verdict, no error, zero counts. */
    constructor (engine: Engine, puzzle: Puzzle)
      ensures Valid()
      ensures this.engine == engine && this.puzzle == puzzle
      ensures regexInput == "" && matchPreview == puzzle.text && !hasMatches
      ensures isCorrect == None && errorMessage == None
      ensures matchCount == 0 && expectedCount == 0
    {
      this.engine := engine;
      this.puzzle := puzzle;
      regexInput := "";
      matchPreview := puzzle.text;
      hasMatches := false;
      isCorrect := None;
      errorMessage := None;
      matchCount := 0;
      expectedCount := 0;
    }

    method SetPreview(p: PreviewFields)
      modifies this
      ensures Preview() == p
      ensures puzzle == old(puzzle) && regexInput == old(regexInput)
      ensures isCorrect == old(isCorrect) && expectedCount == old(expectedCount)
    {
      matchPreview, hasMatches, errorMessage, matchCount := p.matchPreview, p.hasMatches, p.errorMessage, p.matchCount;
    }

    /**
     * The reset effect when another puzzle is shown: the input, preview,
     * verdict and error are reset; the two counts keep their values.
     */
    method ChangePuzzle(p: Puzzle)
      requires Valid()
      modifies this
      ensures Valid()
      ensures puzzle == p
      ensures regexInput == "" && matchPreview == p.text && !hasMatches
      ensures isCorrect == None && errorMessage == None
      ensures matchCount == old(matchCount) && expectedCount == old(expectedCount)
    {
      puzzle := p;
      regexInput := "";
      matchPreview := p.text;
      hasMatches := false;
      isCorrect := None;
      errorMessage := None;
    }

    /** Typing `value` in the pattern field: the input becomes `value` and the preview is its live preview. */
    method HandleRegexInputChange(value: string)
      requires Valid()
      modifies this
      ensures Valid()
      ensures regexInput == value
      ensures Preview() == LivePreview(engine, value, puzzle.text, old(Preview()))
      ensures puzzle == old(puzzle) && isCorrect == old(isCorrect) && expectedCount == old(expectedCount)
    {
      regexInput := value;
      var after := LivePreview(engine, value, puzzle.text, Preview());
      SetPreview(after);
    }

    /**
     * Submitting the form. A blank input changes nothing. Otherwise the
     * submission is graded: a pattern that does not compile (the user's or the
     * solution's) sets the verdict to wrong with the check-failed message; a
     * graded submission records the solution's match count and the verdict,
     * and a correct verdict with a session sends the completion request. When
     * that request fails, the verdict turns to wrong with the check-failed
     * message. `post` is the request sent; `matchPreview`, `hasMatches` and `matchCount` are never written.
     */
    method CheckAnswer(sessionId: Option<string>, postFails: bool) returns (post: Option<ProgressPost>)
      requires Valid()
      modifies this
      ensures Valid()
      ensures puzzle == old(puzzle) && regexInput == old(regexInput)
      ensures matchPreview == old(matchPreview) && hasMatches == old(hasMatches) && matchCount == old(matchCount)
      ensures IsBlank(regexInput) ==>
        post.None? && isCorrect == old(isCorrect) && errorMessage == old(errorMessage) && expectedCount == old(expectedCount)
      ensures !IsBlank(regexInput) && Grade(engine, regexInput, puzzle.solution, puzzle.text).CheckFailed? ==>
        && post.None?
        && isCorrect == Some(false) && errorMessage == Some(CheckFailedMessage)
        && expectedCount == old(expectedCount)
      ensures !IsBlank(regexInput) && Grade(engine, regexInput, puzzle.solution, puzzle.text).Graded? ==>
        var v := Grade(engine, regexInput, puzzle.solution, puzzle.text);
        && expectedCount == v.expectedCount
        && post == CompletionPost(puzzle, sessionId, v.isCorrect)
        && (post.Some? && postFails ==> isCorrect == Some(false) && errorMessage == Some(CheckFailedMessage))
        && (post.None? || !postFails ==> isCorrect == Some(v.isCorrect) && errorMessage == old(errorMessage))
    {
      post := None;
      if IsBlank(regexInput) {
        return;
      }
      var v := Grade(engine, regexInput, puzzle.solution, puzzle.text);
      if v.CheckFailed? {
        errorMessage := Some(CheckFailedMessage);
        isCorrect := Some(false);
        return;
      }
      expectedCount := v.expectedCount;
      isCorrect := Some(v.isCorrect);
      post := CompletionPost(puzzle, sessionId, v.isCorrect);
      if post.Some? && postFails {
        errorMessage := Some(CheckFailedMessage);
        isCorrect := Some(false);
      }
    }

    /** "Give up": the input becomes the solution and the preview shows the solution's matches. */
    method HandleGiveUp()
      requires Valid()
      modifies this
      ensures Valid()
      ensures regexInput == puzzle.solution
      ensures Preview() == SolutionPreview(engine, puzzle.solution, puzzle.text, old(Preview()))
      ensures puzzle == old(puzzle) && isCorrect == old(isCorrect) && expectedCount == old(expectedCount)
    {
      regexInput := puzzle.solution;
      var after := SolutionPreview(engine, puzzle.solution, puzzle.text, Preview());
      SetPreview(after);
    }
  }

  /**
   * Giving up and then checking a non-blank solution that compiles grades it
   * correct, and the completion request carries the puzzle's id when there is
   * a session. Only a failed completion request turns the answer into
   * "wrong" with the check-failed message.
   */
  method GiveUpThenCheck(card: PuzzleCard, sessionId: Option<string>, postFails: bool) returns (post: Option<ProgressPost>)
    requires card.Valid()
    requires !IsBlank(card.puzzle.solution) && card.engine.matchAll(card.puzzle.solution, card.puzzle.text).Some?
    modifies card
    ensures card.Valid()
    ensures card.puzzle == old(card.puzzle) && card.regexInput == card.puzzle.solution
    ensures card.isCorrect == if postFails && HasSession(sessionId) then Some(false) else Some(true)
    ensures card.errorMessage ==
      if postFails && HasSession(sessionId) then Some(CheckFailedMessage) else old(card.errorMessage)
    ensures card.expectedCount == |card.engine.matchAll(card.puzzle.solution, card.puzzle.text).value|
    ensures post == CompletionPost(card.puzzle, sessionId, true)
    ensures post.Some? <==> HasSession(sessionId)
  {
    card.HandleGiveUp();
    GradeReflexive(card.engine, card.puzzle.solution, card.puzzle.text);
    post := card.CheckAnswer(sessionId, postFails);
  }
}
