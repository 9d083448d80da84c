/** The identity record shared by every screen. */
module Users {
  import opened Common

  /** The four intake flags and their count. */
  datatype AssessmentResults = AssessmentResults(
    stress: bool,
    anxiety: bool,
    depression: bool,
    sleepIssues: bool,
    score: int)

  /** A signed-in student. `id` is the client-generated timestamp text. */
  datatype User = User(
    id: string,
    name: string,
    email: string,
    university: string,
    year: string,
    assessmentResults: Option<AssessmentResults>)

  function FlagCount(r: AssessmentResults): (n: nat)
    ensures n <= 4
  {
    (if r.stress then 1 else 0) + (if r.anxiety then 1 else 0)
    + (if r.depression then 1 else 0) + (if r.sleepIssues then 1 else 0)
  }

  /** A result's score counts its flags, as every result the assessment
      screen builds does (`Intake.ResultsOf`). */
  predicate ScoreMatchesFlags(r: AssessmentResults) {
    r.score == FlagCount(r)
  }
}
