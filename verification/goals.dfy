/** The daily goal checklist: toggling, the progress percentage, the reset
    button, and the per-day storage key. */
module Goals {
  import opened Common
  import opened JsNumber

  /** A goal as far as the checklist logic reads it (the icon is markup). */
  datatype Goal = Goal(id: int, text: string, completed: bool)

  const Initial := [Goal(1, "Drink 8 glasses of water", false),
                    Goal(2, "Sleep for 7+ hours", false),
                    Goal(3, "10 mins Mindfulness", false),
                    Goal(4, "Read a library article", false)]

  /** The key of one day's list; `day` is `new Date().toDateString()`. */
  function DayKey(day: string): (k: string)
    ensures |k| == 11 + |day| && k[11..] == day
  {
    "dailyGoals_" + day
  }

  /** The mount effect: the day's stored list, parsed without a guard
      (`None` when the parse throws), or the four initial goals. */
  function Mount(store: Store, day: string, codec: Codec<seq<Goal>>): (r: Option<seq<Goal>>)
    ensures Saved(store, DayKey(day)).None? ==> r == Some(Initial)
    ensures Saved(store, DayKey(day)).Some? ==> r == codec.decode(store[DayKey(day)])
  {
    match Saved(store, DayKey(day))
    case None => Some(Initial)
    case Some(text) => codec.decode(text)
  }

  /** `toggleGoal`: flip `completed` on the goals with that id. */
  function Toggle(goals: seq<Goal>, id: int): (r: seq<Goal>)
    ensures |r| == |goals|
    ensures forall i :: 0 <= i < |goals| ==>
              r[i].id == goals[i].id && r[i].text == goals[i].text
              && (r[i].completed <==> (if goals[i].id == id then !goals[i].completed else goals[i].completed))
  {
    if goals == [] then []
    else [if goals[0].id == id then goals[0].(completed := !goals[0].completed) else goals[0]]
         + Toggle(goals[1..], id)
  }

  /** Toggling the same goal twice gives back the list. */
  lemma ToggleTwice(goals: seq<Goal>, id: int)
    ensures Toggle(Toggle(goals, id), id) == goals
  {
    var r := Toggle(Toggle(goals, id), id);
    assert forall i :: 0 <= i < |goals| ==> r[i] == goals[i];
  }

  /** Toggles of different goals commute. */
  lemma ToggleCommutes(goals: seq<Goal>, a: int, b: int)
    ensures Toggle(Toggle(goals, a), b) == Toggle(Toggle(goals, b), a)
  {
    var l := Toggle(Toggle(goals, a), b);
    var r := Toggle(Toggle(goals, b), a);
    assert forall i :: 0 <= i < |goals| ==> l[i] == r[i];
  }

  /** A toggle writes the new list under the day's key and nothing else. */
  function Persist(store: Store, day: string, goals: seq<Goal>, codec: Codec<seq<Goal>>): (r: Store)
    ensures r.Keys == store.Keys + {DayKey(day)}
    ensures forall k :: k in store && k != DayKey(day) ==> r[k] == store[k]
    ensures r[DayKey(day)] == codec.encode(goals)
  {
    store[DayKey(day) := codec.encode(goals)]
  }

  /** What a toggle stores is what a later mount on the same day loads. */
  lemma ToggleThenMount(store: Store, day: string, goals: seq<Goal>, id: int, codec: Codec<seq<Goal>>)
    requires Lossless(codec)
    ensures Mount(Persist(store, day, Toggle(goals, id), codec), day, codec) == Some(Toggle(goals, id))
  {
    var g := Toggle(goals, id);
    assert codec.decode(codec.encode(g)) == Some(g);
  }

  /** The reset button: every goal not completed, and the day's key gone. */
  function Reset(goals: seq<Goal>, store: Store, day: string): (r: (seq<Goal>, Store))
    ensures |r.0| == |goals|
    ensures forall i :: 0 <= i < |goals| ==> r.0[i] == goals[i].(completed := false)
    ensures DayKey(day) !in r.1 && r.1.Keys == store.Keys - {DayKey(day)}
    ensures forall k :: k in r.1 ==> r.1[k] == store[k]
  {
    (seq(|goals|, i requires 0 <= i < |goals| => goals[i].(completed := false)),
     store - {DayKey(day)})
  }

  /** After a reset nothing is done and the next mount starts over. */
  lemma ResetStartsOver(goals: seq<Goal>, store: Store, day: string, codec: Codec<seq<Goal>>)
    ensures CompletedCount(Reset(goals, store, day).0) == 0
    ensures Mount(Reset(goals, store, day).1, day, codec) == Some(Initial)
  {
    NoneCompleted(Reset(goals, store, day).0);
  }

  // ---------------------------------------------------------------------
  // progress

  /** `goals.filter(g => g.completed).length`. */
  function CompletedCount(goals: seq<Goal>): (n: nat)
    ensures n <= |goals|
  {
    if goals == [] then 0 else (if goals[0].completed then 1 else 0) + CompletedCount(goals[1..])
  }

  predicate AllDone(goals: seq<Goal>) {
    forall i :: 0 <= i < |goals| ==> goals[i].completed
  }

  lemma {:induction false} NoneCompleted(goals: seq<Goal>)
    requires forall i :: 0 <= i < |goals| ==> !goals[i].completed
    ensures CompletedCount(goals) == 0
  {
    if goals != [] {
      NoneCompleted(goals[1..]);
    }
  }

  /** Every goal is done exactly when the count reaches the length. */
  lemma {:induction false} AllDoneIffCount(goals: seq<Goal>)
    ensures AllDone(goals) <==> CompletedCount(goals) == |goals|
  {
    if goals != [] {
      AllDoneIffCount(goals[1..]);
      assert AllDone(goals) <==> goals[0].completed && AllDone(goals[1..]) by {
        assert forall i :: 1 <= i < |goals| ==> goals[i] == goals[1..][i - 1];
      }
    }
  }

  /** `Math.round(done / total * 100)`, with the ratio taken exactly
      rather than in floating point; with no goal at all it is `0/0`,
      which is NaN. */
  function Progress(goals: seq<Goal>): (p: Num)
    ensures goals == [] <==> p.NaN?
    ensures p.Int? ==> 0 <= p.v <= 100
  {
    if goals == [] then NaN
    else
      RoundRatioAtMost(100 * CompletedCount(goals), |goals|, 100);
      Int(RoundRatio(100 * CompletedCount(goals), |goals|))
  }

  /** The progress reads 100 when every goal is done, and, for lists
      shorter than 200 goals, only then. */
  lemma FullProgress(goals: seq<Goal>)
    requires goals != []
    ensures AllDone(goals) ==> Progress(goals) == Int(100)
    ensures |goals| < 200 ==> (Progress(goals) == Int(100) <==> AllDone(goals))
  {
    AllDoneIffCount(goals);
    var c := CompletedCount(goals);
    var n := |goals|;
    if c == n {
      RoundRatioWhole(100 * c, n, 100);
    }
    if Progress(goals) == Int(100) && n < 200 {
      var r := RoundRatio(100 * c, n);
      assert r == 100;
      assert 2 * n * r == 200 * n;
      assert 199 * n <= 200 * c;
    }
  }

  /** With 201 goals, 200 of them done, the percentage already rounds to
      100 (200/201 is above 99.5%). */
  lemma AlmostAllRoundsUp()
    ensures var g := seq(200, i => Goal(i, "", true)) + [Goal(200, "", false)];
            Progress(g) == Int(100) && !AllDone(g)
  {
    var a := seq(200, i => Goal(i, "", true));
    var g := a + [Goal(200, "", false)];
    AllCompleted(a);
    CompletedAppend(a, [Goal(200, "", false)]);
    assert g[200].completed == false;
  }

  lemma {:induction false} AllCompleted(goals: seq<Goal>)
    requires forall i :: 0 <= i < |goals| ==> goals[i].completed
    ensures CompletedCount(goals) == |goals|
  {
    if goals != [] {
      AllCompleted(goals[1..]);
    }
  }

  lemma {:induction false} CompletedAppend(a: seq<Goal>, b: seq<Goal>)
    ensures CompletedCount(a + b) == CompletedCount(a) + CompletedCount(b)
  {
    if a == [] {
      assert a + b == b;
    } else {
      assert (a + b)[1..] == a[1..] + b;
      CompletedAppend(a[1..], b);
    }
  }
}
