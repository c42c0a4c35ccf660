/**
 * What the puzzle card and the puzzle hook share: the host regular-expression
 * engine (seen only through its results), JavaScript's `trim()` blankness test,
 * the verdict that compares a user's matches with the solution's, the grading
 * of a submission, and the live-preview rule.
 */
module Grading {
  import opened Wrappers
  import opened Schema

  /**
   * The host engine. `matchAll(pattern, text)` is `new RegExp(pattern, 'g')`
   * followed by `text.match(regex) || []`: `None` when the constructor throws
   * (the pattern does not compile), otherwise every match in order.
   * `highlight(pattern, text)` is the text with each match wrapped in a
   * highlight marker (`text.replace(regex, ...)`), an opaque string here.
   */
  datatype Engine = Engine(
    matchAll: (string, string) -> Option<seq<string>>,
    highlight: (string, string) -> string)

  const InvalidPatternMessage: string := "Invalid regex pattern. Please check your syntax."
  const CheckFailedMessage: string := "Error checking your answer. Please try again."
  const ShowSolutionFailedMessage: string := "Error showing solution. Please try again."

  /** The code points `String.prototype.trim` removes: ECMAScript WhiteSpace and LineTerminator. */
  predicate IsJsWhitespace(c: char) {
    || c == '\U{0009}' || c == '\U{000B}' || c == '\U{000C}' || c == '\U{0020}'
    || c == '\U{00A0}' || c == '\U{1680}' || ('\U{2000}' <= c <= '\U{200A}')
    || c == '\U{202F}' || c == '\U{205F}' || c == '\U{3000}' || c == '\U{FEFF}'
    || c == '\U{000A}' || c == '\U{000D}' || c == '\U{2028}' || c == '\U{2029}'
  }

  function TrimStart(s: string): string {
    if s != [] && IsJsWhitespace(s[0]) then TrimStart(s[1..]) else s
  }

  function TrimEnd(s: string): string {
    if s != [] && IsJsWhitespace(s[|s| - 1]) then TrimEnd(s[..|s| - 1]) else s
  }

  /** `s.trim()`. */
  function Trim(s: string): string {
    TrimEnd(TrimStart(s))
  }

  /** `!s.trim()`: the trimmed string is empty, hence falsy; that is, `s` is whitespace only. */
  function IsBlank(s: string): (blank: bool)
    ensures blank <==> AllWhitespace(s)
  {
    TrimEmptyIffAllWhitespace(s);
    Trim(s) == ""
  }

  /** Only whitespace. */
  ghost predicate AllWhitespace(s: string) {
    forall i :: 0 <= i < |s| ==> IsJsWhitespace(s[i])
  }

  lemma {:induction false} TrimStartAll(s: string)
    ensures TrimStart(s) == "" <==> AllWhitespace(s)
  {
    if s != [] {
      TrimStartAll(s[1..]);
      if IsJsWhitespace(s[0]) {
        assert AllWhitespace(s) <==> AllWhitespace(s[1..]) by {
          assert forall i :: 1 <= i < |s| ==> s[i] == s[1..][i - 1];
        }
      }
    }
  }

  lemma {:induction false} TrimEndNonEmpty(s: string)
    requires s != [] && !IsJsWhitespace(s[0])
    ensures TrimEnd(s) != ""
    ensures TrimEnd(s)[0] == s[0]
    decreases |s|
  {
    if IsJsWhitespace(s[|s| - 1]) {
      TrimEndNonEmpty(s[..|s| - 1]);
    }
  }

  /** Trimming leaves nothing exactly when the string is made of whitespace only (the empty string included). */
  lemma TrimEmptyIffAllWhitespace(s: string)
    ensures Trim(s) == "" <==> AllWhitespace(s)
  {
    TrimStartAll(s);
    var t := TrimStart(s);
    if t != "" {
      TrimStartNonWhite(s);
      TrimEndNonEmpty(t);
    }
  }

  /**
   * `s.trim()` is the contiguous piece of `s` that starts where `trimStart`
   * stopped, and it neither starts nor ends with whitespace.
   */
  lemma TrimIsInnerPiece(s: string)
    ensures var k := |s| - |TrimStart(s)|; 0 <= k <= k + |Trim(s)| <= |s| && Trim(s) == s[k..k + |Trim(s)|]
    ensures Trim(s) != "" ==> !IsJsWhitespace(Trim(s)[0]) && !IsJsWhitespace(Trim(s)[|Trim(s)| - 1])
  {
    var t := TrimStart(s);
    TrimStartSuffix(s);
    TrimEndPrefix(t);
    if Trim(s) != "" {
      TrimStartNonWhite(s);
      TrimEndNonEmpty(t);
      TrimEndNonWhite(t);
    }
  }

  /** `trimStart` keeps a suffix. */
  lemma {:induction false} TrimStartSuffix(s: string)
    ensures |TrimStart(s)| <= |s| && TrimStart(s) == s[|s| - |TrimStart(s)|..]
    decreases |s|
  {
    if s != [] && IsJsWhitespace(s[0]) {
      TrimStartSuffix(s[1..]);
    }
  }

  /** `trimEnd` keeps a prefix. */
  lemma {:induction false} TrimEndPrefix(s: string)
    ensures |TrimEnd(s)| <= |s| && TrimEnd(s) == s[..|TrimEnd(s)|]
    decreases |s|
  {
    if s != [] && IsJsWhitespace(s[|s| - 1]) {
      TrimEndPrefix(s[..|s| - 1]);
    }
  }

  lemma {:induction false} TrimEndNonWhite(s: string)
    requires TrimEnd(s) != ""
    ensures !IsJsWhitespace(TrimEnd(s)[|TrimEnd(s)| - 1])
    decreases |s|
  {
    if s != [] && IsJsWhitespace(s[|s| - 1]) {
      TrimEndNonWhite(s[..|s| - 1]);
    }
  }

  lemma {:induction false} TrimStartNonWhite(s: string)
    requires TrimStart(s) != ""
    ensures !IsJsWhitespace(TrimStart(s)[0])
  {
    if s != [] && IsJsWhitespace(s[0]) {
      TrimStartNonWhite(s[1..]);
    }
  }

  /**
   * The grading verdict: the same number of matches, every user match among
   * the solution's and every solution match among the user's. Multiplicities
   * are compared only through the total count.
   */
  function IsMatchCorrect(userMatches: seq<string>, solutionMatches: seq<string>): (ok: bool)
    ensures ok <==> |userMatches| == |solutionMatches| && (set m | m in userMatches) == (set m | m in solutionMatches)
  {
    SameMembersSameSet(userMatches, solutionMatches);
    && |userMatches| == |solutionMatches|
    && (forall m :: m in userMatches ==> m in solutionMatches)
    && (forall m :: m in solutionMatches ==> m in userMatches)
  }

  /** Mutual membership is equality of the sets of values. */
  lemma SameMembersSameSet(u: seq<string>, s: seq<string>)
    ensures (forall m :: m in u ==> m in s) && (forall m :: m in s ==> m in u) <==> (set m | m in u) == (set m | m in s)
  {
    var su, ss := set m | m in u, set m | m in s;
    if su == ss {
      forall x | x in u ensures x in s {
        assert x in su;
      }
      forall x | x in s ensures x in u {
        assert x in ss;
      }
    }
  }

  lemma VerdictReflexive(u: seq<string>)
    ensures IsMatchCorrect(u, u)
  {
  }

  lemma VerdictSymmetric(u: seq<string>, s: seq<string>)
    ensures IsMatchCorrect(u, s) == IsMatchCorrect(s, u)
  {
  }

  /** Reordering the user's matches (any permutation) does not change the verdict. */
  lemma VerdictIgnoresOrder(u: seq<string>, u': seq<string>, s: seq<string>)
    requires multiset(u) == multiset(u')
    ensures IsMatchCorrect(u, s) == IsMatchCorrect(u', s)
  {
    assert |u| == |u'| by {
      assert |multiset(u)| == |multiset(u')|;
    }
    forall m ensures m in u <==> m in u' {
      assert m in u <==> m in multiset(u);
      assert m in u' <==> m in multiset(u');
    }
  }

  /** Equal multisets of matches are always graded correct. */
  lemma SameMultisetIsCorrect(u: seq<string>, s: seq<string>)
    requires multiset(u) == multiset(s)
    ensures IsMatchCorrect(u, s)
  {
    VerdictReflexive(s);
    VerdictIgnoresOrder(u, s, s);
  }

  /** The converse fails: ["a","a","b"] against ["a","b","b"] is graded correct. */
  lemma CorrectIsNotSameMultiset()
    ensures IsMatchCorrect(["a", "a", "b"], ["a", "b", "b"])
    ensures multiset(["a", "a", "b"]) != multiset(["a", "b", "b"])
  {
    assert multiset(["a", "a", "b"])["a"] == 2;
    assert multiset(["a", "b", "b"])["a"] == 1;
  }

  /** Equal counts are not enough: three "a" against three "ab" is graded wrong. */
  lemma SameCountDifferentValues()
    ensures !IsMatchCorrect(["a", "a", "a"], ["ab", "ab", "ab"])
  {
    assert "a" in ["a", "a", "a"];
  }

  /** The outcome of grading a non-blank submission. */
  datatype Verdict =
    | Graded(expectedCount: nat, isCorrect: bool)
    | CheckFailed

  /**
   * Compile and run the user's pattern, then the solution's; either throwing
   * ends the check without a verdict. Otherwise the expected count is the
   * number of solution matches and the verdict compares the two match lists.
   */
  function Grade(engine: Engine, input: string, solution: string, text: string): (v: Verdict)
    ensures v.Graded? <==> engine.matchAll(input, text).Some? && engine.matchAll(solution, text).Some?
  {
    match engine.matchAll(input, text)
    case None => CheckFailed
    case Some(userMatches) =>
      match engine.matchAll(solution, text)
      case None => CheckFailed
      case Some(solutionMatches) => Graded(|solutionMatches|, IsMatchCorrect(userMatches, solutionMatches))
  }

  /** Submitting the solution itself is graded correct whenever the solution compiles. */
  lemma GradeReflexive(engine: Engine, solution: string, text: string)
    requires engine.matchAll(solution, text).Some?
    ensures Grade(engine, solution, solution, text) == Graded(|engine.matchAll(solution, text).value|, true)
  {
    VerdictReflexive(engine.matchAll(solution, text).value);
  }

  /** Swapping the two patterns keeps a correct verdict correct. */
  lemma GradeSymmetric(engine: Engine, a: string, b: string, text: string)
    requires Grade(engine, a, b, text).Graded?
    ensures Grade(engine, b, a, text).Graded?
    ensures Grade(engine, a, b, text).isCorrect == Grade(engine, b, a, text).isCorrect
  {
    VerdictSymmetric(engine.matchAll(a, text).value, engine.matchAll(b, text).value);
  }

  /** `if (sessionId)`: a stored session id that is not the empty string (JavaScript truthiness). */
  function HasSession(sessionId: Option<string>): (truthy: bool)
    ensures truthy <==> sessionId.Some? && |sessionId.value| > 0
  {
    sessionId.Some? && sessionId.value != ""
  }

  /** The body `{ puzzleId, sessionId, completed: true }` of the completion request. */
  datatype ProgressPost = ProgressPost(puzzleId: int, sessionId: string, completed: bool)

  /** The completion request a verdict sends: only for a correct verdict and a known session. */
  function CompletionPost(puzzle: Puzzle, sessionId: Option<string>, isCorrect: bool): (post: Option<ProgressPost>)
    ensures post.Some? <==> isCorrect && HasSession(sessionId)
    ensures post.Some? ==> post.value == ProgressPost(puzzle.id, sessionId.value, true)
  {
    if isCorrect && HasSession(sessionId) then Some(ProgressPost(puzzle.id, sessionId.value, true)) else None
  }

  /** The four fields the live preview writes. */
  datatype PreviewFields = PreviewFields(
    matchPreview: string,
    hasMatches: bool,
    errorMessage: Option<string>,
    matchCount: nat)

  /**
   * The live preview of `input` over `text`: a blank input shows the plain
   * text and no matches (error and count untouched); a pattern that does not
   * compile sets the invalid-pattern message and no matches (preview and count
   * untouched); a compiling pattern shows its highlighted matches, their count,
   * whether there are any, and clears the error.
   */
  function LivePreview(engine: Engine, input: string, text: string, before: PreviewFields): (after: PreviewFields)
    ensures after.hasMatches <==>
      !IsBlank(input) && engine.matchAll(input, text).Some? && |engine.matchAll(input, text).value| > 0
    ensures after.hasMatches ==> after.matchCount > 0
    ensures IsBlank(input) ==>
      after.matchPreview == text && after.errorMessage == before.errorMessage && after.matchCount == before.matchCount
    ensures !IsBlank(input) && engine.matchAll(input, text).None? ==>
      && after.errorMessage == Some(InvalidPatternMessage)
      && after.matchPreview == before.matchPreview && after.matchCount == before.matchCount
    ensures !IsBlank(input) && engine.matchAll(input, text).Some? ==>
      && after.errorMessage == None
      && after.matchPreview == engine.highlight(input, text)
      && after.matchCount == |engine.matchAll(input, text).value|
  {
    if IsBlank(input) then
      before.(matchPreview := text, hasMatches := false)
    else
      match engine.matchAll(input, text)
      case None => before.(errorMessage := Some(InvalidPatternMessage), hasMatches := false)
      case Some(matches) => PreviewFields(engine.highlight(input, text), |matches| > 0, None, |matches|)
  }

  /** Running the preview again on the same input and text changes nothing. */
  lemma LivePreviewIdempotent(engine: Engine, input: string, text: string, before: PreviewFields)
    ensures LivePreview(engine, input, text, LivePreview(engine, input, text, before)) ==
      LivePreview(engine, input, text, before)
  {
  }

  /**
   * The preview of an input made only of whitespace (the empty input among
   * them) is the plain text with no matches.
   */
  lemma EmptyInputPreview(engine: Engine, input: string, text: string, before: PreviewFields)
    requires AllWhitespace(input)
    ensures LivePreview(engine, input, text, before) == before.(matchPreview := text, hasMatches := false)
  {
  }
}
