/** The dashboard's personalisation: the welcome message chosen from the
    score and the recommendation links chosen from the flags. */
module DashboardView {
  import opened Common
  import opened Users

  datatype Welcome = DefaultWelcome | SupportWelcome | HabitsWelcome | DoingWell

  /** `getWelcomeMessage`. */
  function WelcomeMessage(u: User): (w: Welcome)
    ensures u.assessmentResults.None? <==> w == DefaultWelcome
    ensures u.assessmentResults.Some? ==>
              && (w == SupportWelcome <==> u.assessmentResults.value.score >= 3)
              && (w == HabitsWelcome <==> u.assessmentResults.value.score == 2)
              && (w == DoingWell <==> u.assessmentResults.value.score < 2)
  {
    match u.assessmentResults
    case None => DefaultWelcome
    case Some(r) =>
      if r.score >= 3 then SupportWelcome
      else if r.score >= 2 then HabitsWelcome
      else DoingWell
  }

  /** The four recommendations, in the order they are pushed: stress,
      anxiety, depression, sleep. */
  datatype Link = GamesLink | CommunityLink | DoctorsLink | MusicLink

  /** The route each recommendation links to. */
  function Path(l: Link): string {
    match l
    case GamesLink => "/games"
    case CommunityLink => "/community"
    case DoctorsLink => "/doctors"
    case MusicLink => "/music"
  }

  /** Position of a recommendation in the fixed order. */
  function Rank(l: Link): nat {
    match l
    case GamesLink => 0
    case CommunityLink => 1
    case DoctorsLink => 2
    case MusicLink => 3
  }

  /** `getRecommendations`, as the links of the recommendations. */
  function Recommendations(u: User): (recs: seq<Link>)
    ensures u.assessmentResults.None? ==> recs == []
    ensures |recs| <= 4
  {
    match u.assessmentResults
    case None => []
    case Some(r) =>
      (if r.stress then [GamesLink] else [])
      + (if r.anxiety then [CommunityLink] else [])
      + (if r.depression then [DoctorsLink] else [])
      + (if r.sleepIssues then [MusicLink] else [])
  }

  /** One recommendation per set flag, each exactly when its flag is set,
      none twice, in the fixed order. */
  lemma RecommendationsFollowFlags(u: User)
    ensures u.assessmentResults.Some? ==>
              var r := u.assessmentResults.value;
              var recs := Recommendations(u);
              && |recs| == FlagCount(r)
              && (GamesLink in recs <==> r.stress)
              && (CommunityLink in recs <==> r.anxiety)
              && (DoctorsLink in recs <==> r.depression)
              && (MusicLink in recs <==> r.sleepIssues)
    ensures NoDuplicates(Recommendations(u))
    ensures forall i, j :: 0 <= i < j < |Recommendations(u)| ==>
              Rank(Recommendations(u)[i]) < Rank(Recommendations(u)[j])
  {
    if u.assessmentResults.Some? {
      var r := u.assessmentResults.value;
      if r.stress {
        if r.anxiety {
          if r.depression { if r.sleepIssues { } else { } } else { if r.sleepIssues { } else { } }
        } else {
          if r.depression { if r.sleepIssues { } else { } } else { if r.sleepIssues { } else { } }
        }
      } else {
        if r.anxiety {
          if r.depression { if r.sleepIssues { } else { } } else { if r.sleepIssues { } else { } }
        } else {
          if r.depression { if r.sleepIssues { } else { } } else { if r.sleepIssues { } else { } }
        }
      }
    }
  }

  /** When the score counts the flags, as every result built by the
      assessment does, there is one recommendation per point of score. */
  lemma RecommendationsMatchScore(u: User)
    requires u.assessmentResults.Some? && ScoreMatchesFlags(u.assessmentResults.value)
    ensures |Recommendations(u)| == u.assessmentResults.value.score
  {
    RecommendationsFollowFlags(u);
  }
}
