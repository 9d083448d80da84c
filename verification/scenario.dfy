/** The onboarding path across components: sign in, answer the intake
    questions, land on the dashboard. The root's completion handler only
    sets the flag, so the result reaches the dashboard only through
    storage, on the next start-up. */
module Onboarding {
  import opened Common
  import opened Users
  import opened Session
  import Intake
  import opened DashboardView

  /** The app after signing in `u` and answering four questions: the
      assessment screen writes the user with the result to storage, then
      the root marks the assessment complete. */
  function Onboard(a: App, u: User, clicks: seq<bool>, j: Json): (r: App)
    requires |clicks| == Intake.QuestionCount
    ensures r.state == State(Some(u), true)
  {
    var signedIn := Login(a, u, j);
    var out := Intake.Feed(Intake.Start, clicks, u, signedIn.store, j.user);
    CompleteAssessment(App(signedIn.state, out.store))
  }

  /** Right after the assessment the dashboard still sees the signed-in
      user without a result: the default welcome and no recommendations,
      whatever was answered. */
  lemma FreshResultsNotShown(a: App, u: User, clicks: seq<bool>, j: Json)
    requires |clicks| == Intake.QuestionCount && u.assessmentResults.None?
    ensures var shown := Onboard(a, u, clicks, j).state.user.value;
            WelcomeMessage(shown) == DefaultWelcome && Recommendations(shown) == []
  {
  }

  /** After a reload the stored user carries the result: one
      recommendation per yes answer, and the welcome chosen from that
      count. */
  lemma ReloadShowsResults(a: App, u: User, clicks: seq<bool>, j: Json)
    requires |clicks| == Intake.QuestionCount && Faithful(j)
    ensures var h := Hydrate(Onboard(a, u, clicks, j).store, j);
            && h.Some? && h.value.assessmentDone && h.value.user.Some?
            && h.value.user.value.assessmentResults.Some?
            && |Recommendations(h.value.user.value)| == Intake.CountTrue(clicks)
            && (WelcomeMessage(h.value.user.value) == SupportWelcome <==> Intake.CountTrue(clicks) >= 3)
  {
    var signedIn := Login(a, u, j);
    var out := Intake.Feed(Intake.Start, clicks, u, signedIn.store, j.user);
    Intake.FourAnswers(clicks, u, signedIn.store, j.user);
    Intake.FeedReportsOnce(Intake.Start, clicks, u, signedIn.store, j.user);
    assert Intake.Start.answers + clicks == clicks;
    assert ScoreMatchesFlags(out.results.value);
    var saved := u.(assessmentResults := out.results);
    var store := Onboard(a, u, clicks, j).store;
    assert store == out.store[CompletedKey := "true"];
    assert j.user.encode(saved) != "";
    assert j.user.decode(j.user.encode(saved)) == Some(saved);
    assert Saved(store, UserKey) == Some(j.user.encode(saved));
    assert Saved(store, CompletedKey) == Some("true");
    assert Hydrate(store, j) == Some(State(Some(saved), true));
    RecommendationsMatchScore(saved);
  }
}
