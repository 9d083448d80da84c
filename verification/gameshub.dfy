/** The games page: which game is open, and the mood-points counter that
    the games and the quick boosters raise and that is mirrored to the
    store as a decimal string. */
module GamesHub {
  import opened Common
  import opened JsNumber

  const PointsKey := "moodPoints"

  /** The counter's value before anything is loaded. */
  const StartPoints := 1247

  datatype Game = Breathing | MeditationGame | Puzzles | Nature | JournalGame

  datatype Hub = Hub(points: Num, open: Option<Game>, store: Store)

  /** The store holds the counter's `toString()`, as the save effect
      ensures after every change. */
  predicate Mirrored(h: Hub) {
    PointsKey in h.store && h.store[PointsKey] == NumToString(h.points)
  }

  /** Mounting: a stored counter is read with `parseInt` (so a corrupt one
      becomes NaN), otherwise the counter starts at 1247; the save effect
      then writes the counter back. */
  function Mount(store: Store): (h: Hub)
    ensures Mirrored(h) && h.open.None?
    ensures Saved(store, PointsKey).None? ==> h.points == Int(StartPoints)
    ensures Saved(store, PointsKey).Some? ==> h.points == ParseInt(store[PointsKey])
    ensures forall k :: k in store && k != PointsKey ==> k in h.store && h.store[k] == store[k]
  {
    var points := match Saved(store, PointsKey)
                  case None => Int(StartPoints)
                  case Some(text) => ParseInt(text);
    Hub(points, None, store[PointsKey := NumToString(points)])
  }

  /** What the counter mirrors is what the next mount reads. */
  lemma RemountKeepsPoints(h: Hub)
    requires Mirrored(h)
    ensures Mount(h.store).points == h.points
  {
    ParseIntRoundTrip(h.points);
    NumToStringNonEmpty(h.points);
  }

  /** Play Now. */
  function Select(h: Hub, g: Game): (r: Hub)
    ensures r == h.(open := Some(g))
  {
    h.(open := Some(g))
  }

  /** The close button of the game frame: no points. */
  function Close(h: Hub): (r: Hub)
    ensures r.open.None? && r.points == h.points && r.store == h.store
  {
    h.(open := None)
  }

  /** `handleGameComplete(pointsEarned)`: only a positive amount is
      added; the game closes either way. */
  function Complete(h: Hub, earned: int): (r: Hub)
    requires Mirrored(h)
    ensures r.open.None? && Mirrored(r)
    ensures earned > 0 ==> r.points == h.points.Plus(earned)
    ensures earned <= 0 ==> r.points == h.points && r.store == h.store
  {
    var points := if earned > 0 then h.points.Plus(earned) else h.points;
    Hub(points, None, h.store[PointsKey := NumToString(points)])
  }

  /** The quick boosters, worth 10, 15, 20 and 25 points. */
  predicate IsBooster(k: int) {
    k == 10 || k == 15 || k == 20 || k == 25
  }

  /** A booster click adds its points and leaves the open game alone. */
  function Boost(h: Hub, k: int): (r: Hub)
    requires IsBooster(k)
    ensures r.open == h.open && Mirrored(r)
    ensures r.points == h.points.Plus(k)
  {
    var points := h.points.Plus(k);
    Hub(points, h.open, h.store[PointsKey := NumToString(points)])
  }

  /** How a game ends, and what it passes to `handleGameComplete`. */
  datatype Ending = FinishBreathing | MeditationDone | ExitMeditation
                  | PuzzleWon | PuzzleQuit | FinishListening | FinishJournal

  /** The points each ending passes. Leaving the meditation early pays
      the same 100 as letting the countdown finish. */
  function Award(e: Ending): (points: nat)
    ensures e == PuzzleQuit <==> points == 0
    ensures points <= 100
    ensures e == ExitMeditation || e == MeditationDone || e == PuzzleWon ==> points == 100
  {
    match e
    case FinishBreathing => 50
    case MeditationDone => 100
    case ExitMeditation => 100
    case PuzzleWon => 100
    case PuzzleQuit => 0
    case FinishListening => 60
    case FinishJournal => 90
  }

  /** Exiting the meditation at any moment leaves the hub exactly as
      finishing it would. */
  lemma ExitPaysLikeFinish(h: Hub)
    requires Mirrored(h)
    ensures Complete(h, Award(ExitMeditation)) == Complete(h, Award(MeditationDone))
    ensures Complete(h, Award(ExitMeditation)).points == h.points.Plus(100)
  {
  }

  /** The puzzle's win report is scheduled on the hub one second after the
      last pair, and the hub stays mounted. Quitting within that second
      first passes 0; the late report still adds 100 and closes whatever
      game was opened meanwhile. */
  lemma QuitThenLateWin(h: Hub, next: Game)
    requires Mirrored(h)
    ensures var quit := Complete(h, Award(PuzzleQuit));
            var reopened := Select(quit, next);
            quit.points == h.points
            && Mirrored(reopened)
            && Complete(reopened, Award(PuzzleWon)).points == h.points.Plus(100)
            && Complete(reopened, Award(PuzzleWon)).open.None?
  {
  }

  /** Every ending except quitting the puzzle raises a numeric counter;
      quitting leaves it exactly as it was; NaN stays NaN. */
  lemma EndingEffect(h: Hub, e: Ending)
    requires Mirrored(h)
    ensures e == PuzzleQuit ==> Complete(h, Award(e)).points == h.points
    ensures e != PuzzleQuit && h.points.Int? ==> Complete(h, Award(e)).points.v > h.points.v
    ensures h.points.NaN? ==> Complete(h, Award(e)).points.NaN?
  {
  }
}
