/** Display names of the difficulty tiers. */
module Labels {
  /** The lower-case tier names the catalogue uses. */
  predicate IsTierName(d: string) {
    d == "easy" || d == "medium" || d == "hard"
  }

  /** The capitalised label of a tier name; any other string is shown as it is. */
  function DifficultyLabel(difficulty: string): (shown: string)
    ensures difficulty == "easy" ==> shown == "Easy"
    ensures difficulty == "medium" ==> shown == "Medium"
    ensures difficulty == "hard" ==> shown == "Hard"
    ensures !IsTierName(difficulty) ==> shown == difficulty
    ensures shown != difficulty <==> IsTierName(difficulty)
  {
    match difficulty
    case "easy" => "Easy"
    case "medium" => "Medium"
    case "hard" => "Hard"
    case _ => difficulty
  }

  /** A label is its own label. */
  lemma LabelIdempotent(difficulty: string)
    ensures DifficultyLabel(DifficultyLabel(difficulty)) == DifficultyLabel(difficulty)
  {
  }

  /** Distinct tier names get distinct labels, and a label is never itself a tier name. */
  lemma LabelsDistinct(a: string, b: string)
    requires IsTierName(a) && IsTierName(b) && a != b
    ensures DifficultyLabel(a) != DifficultyLabel(b)
    ensures !IsTierName(DifficultyLabel(a))
  {
  }
}
