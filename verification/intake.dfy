/** The intake assessment screen: four yes/no questions answered once
    each, in order, with no way back. The fourth answer builds the result,
    writes the user with the result to storage, and reports completion. */
module Intake {
  import opened Common
  import opened Users
  import Session

  const QuestionCount := 4

  /** `currentQuestion` and the answers collected so far. */
  datatype Quiz = Quiz(current: nat, answers: seq<bool>)

  const Start := Quiz(0, [])

  /** The states the screen can be in while it is shown: one answer per
      question already passed. */
  predicate Valid(q: Quiz) {
    q.current < QuestionCount && |q.answers| == q.current
  }

  /** What one click does: either move to the next question, or finish with
      the result, the user that was written, and the storage after the
      write (completion is then reported to the root). */
  datatype Step =
    | Next(quiz: Quiz)
    | Done(quiz: Quiz, results: AssessmentResults, saved: User, store: Store)

  /** `answers.filter(a => a).length`. */
  function CountTrue(s: seq<bool>): (n: nat)
    ensures n <= |s|
  {
    if s == [] then 0 else (if s[0] then 1 else 0) + CountTrue(s[1..])
  }

  lemma CountTrueOfFour(s: seq<bool>)
    requires |s| == 4
    ensures CountTrue(s) == (if s[0] then 1 else 0) + (if s[1] then 1 else 0)
                            + (if s[2] then 1 else 0) + (if s[3] then 1 else 0)
  {
    var t1, t2, t3 := s[1..], s[2..], s[3..];
    assert t1[1..] == t2 && t2[1..] == t3 && t3[1..] == [];
    assert CountTrue(t3) == (if s[3] then 1 else 0);
    assert CountTrue(t2) == (if s[2] then 1 else 0) + CountTrue(t3);
    assert CountTrue(t1) == (if s[1] then 1 else 0) + CountTrue(t2);
  }

  /** The result built from four answers, by position. */
  function ResultsOf(s: seq<bool>): (r: AssessmentResults)
    requires |s| == QuestionCount
    ensures r.stress == s[0] && r.anxiety == s[1] && r.depression == s[2] && r.sleepIssues == s[3]
    ensures ScoreMatchesFlags(r)
    ensures 0 <= r.score <= 4
  {
    CountTrueOfFour(s);
    AssessmentResults(s[0], s[1], s[2], s[3], CountTrue(s))
  }

  /** `handleAnswer`. */
  function Answer(q: Quiz, a: bool, user: User, store: Store, codec: Codec<User>): (r: Step)
    requires Valid(q)
    ensures r.quiz.answers == q.answers + [a]
    ensures r.Next? <==> q.current < QuestionCount - 1
    ensures r.Next? ==> r.quiz.current == q.current + 1 && Valid(r.quiz)
    ensures r.Done? ==> r.quiz.current == QuestionCount - 1 && |r.quiz.answers| == QuestionCount
    ensures r.Done? ==> && r.results.stress == q.answers[0] && r.results.anxiety == q.answers[1]
                        && r.results.depression == q.answers[2] && r.results.sleepIssues == a
    ensures r.Done? ==> ScoreMatchesFlags(r.results)
    ensures r.Done? ==> r.saved == user.(assessmentResults := Some(r.results))
    ensures r.Done? ==> r.store == store[Session.UserKey := codec.encode(r.saved)]
  {
    var answers := q.answers + [a];
    if q.current < QuestionCount - 1 then
      Next(Quiz(q.current + 1, answers))
    else
      var results := ResultsOf(answers);
      var saved := user.(assessmentResults := Some(results));
      Done(Quiz(q.current, answers), results, saved, store[Session.UserKey := codec.encode(saved)])
  }

  /** The outcome of a run of clicks: the final quiz, how many times
      completion was reported, and the result if there was one. */
  datatype Outcome = Outcome(quiz: Quiz, completions: nat, results: Option<AssessmentResults>, store: Store)

  /** Deliver the clicks in order. Once completion is reported the gate
      leaves the screen, so later clicks are never delivered. */
  function Feed(q: Quiz, clicks: seq<bool>, user: User, store: Store, codec: Codec<User>): (r: Outcome)
    requires Valid(q)
    decreases |clicks|
  {
    if clicks == [] then Outcome(q, 0, None, store)
    else
      match Answer(q, clicks[0], user, store, codec)
      case Next(q') => Feed(q', clicks[1..], user, store, codec)
      case Done(q', results, _, store') => Outcome(q', 1, Some(results), store')
  }

  /** Completion is reported exactly once, on the fourth answer, and the
      result maps the answers by position with the score counting the
      yes answers. Fewer than four answers report nothing. */
  lemma {:induction false} FeedReportsOnce(q: Quiz, clicks: seq<bool>, user: User, store: Store, codec: Codec<User>)
    requires Valid(q)
    requires q.current + |clicks| <= QuestionCount
    ensures var r := Feed(q, clicks, user, store, codec);
            && r.completions == (if q.current + |clicks| == QuestionCount then 1 else 0)
            && r.quiz.answers == q.answers + clicks
            && (r.completions == 1 ==> r.results == Some(ResultsOf(q.answers + clicks)))
            && (r.completions == 0 ==> r.results.None? && r.store == store)
    decreases |clicks|
  {
    if clicks != [] {
      var step := Answer(q, clicks[0], user, store, codec);
      assert q.answers + clicks == (q.answers + [clicks[0]]) + clicks[1..];
      if step.Next? {
        FeedReportsOnce(step.quiz, clicks[1..], user, store, codec);
      } else {
        assert clicks == [clicks[0]];
      }
    }
  }

  /** The whole screen from a fresh start: four answers give one report,
      the positional flags, a score in 0..4 equal to the number of yes
      answers, and storage holding the user with that result. */
  lemma FourAnswers(clicks: seq<bool>, user: User, store: Store, codec: Codec<User>)
    requires |clicks| == QuestionCount
    ensures var r := Feed(Start, clicks, user, store, codec);
            && r.completions == 1
            && r.results.Some?
            && r.results.value.stress == clicks[0] && r.results.value.anxiety == clicks[1]
            && r.results.value.depression == clicks[2] && r.results.value.sleepIssues == clicks[3]
            && r.results.value.score == CountTrue(clicks) <= 4
            && r.store == store[Session.UserKey := codec.encode(user.(assessmentResults := r.results))]
  {
    FeedReportsOnce(Start, clicks, user, store, codec);
    assert Start.answers + clicks == clicks;
    FeedStore(Start, clicks, user, store, codec);
  }

  /** On completion, storage gets the input user with only the result
      replaced. */
  lemma {:induction false} FeedStore(q: Quiz, clicks: seq<bool>, user: User, store: Store, codec: Codec<User>)
    requires Valid(q)
    ensures var r := Feed(q, clicks, user, store, codec);
            r.completions == 1 ==>
              (r.results.Some? &&
               r.store == store[Session.UserKey := codec.encode(user.(assessmentResults := r.results))])
    decreases |clicks|
  {
    if clicks != [] {
      var step := Answer(q, clicks[0], user, store, codec);
      if step.Next? {
        FeedStore(step.quiz, clicks[1..], user, store, codec);
      }
    }
  }
}
