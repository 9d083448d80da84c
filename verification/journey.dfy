/** The journey page: the counters it loads from the store and the
    achievements they unlock. */
module Journey {
  import opened Common
  import opened JsNumber
  import GamesHub
  import Ambient

  datatype Progress = Progress(points: Num, journalCount: nat)

  /** The mount effect: the points are `parseInt` of the stored string,
      or 0 when nothing is stored; the journal count is the length of the
      parsed entry list (a parse failure throws: `None`), or 0. */
  function Load(store: Store, entries: Codec<seq<string>>): (r: Option<Progress>)
    ensures Saved(store, Ambient.EntriesKey).Some? ==>
              (r.None? <==> entries.decode(store[Ambient.EntriesKey]).None?)
    ensures Saved(store, Ambient.EntriesKey).None? ==> r.Some? && r.value.journalCount == 0
    ensures Saved(store, Ambient.EntriesKey).Some? && entries.decode(store[Ambient.EntriesKey]).Some? ==>
              r.Some? && r.value.journalCount == |entries.decode(store[Ambient.EntriesKey]).value|
    ensures r.Some? ==>
              (r.value.points ==
               if Saved(store, GamesHub.PointsKey).Some? then ParseInt(store[GamesHub.PointsKey]) else Int(0))
  {
    var points := match Saved(store, GamesHub.PointsKey)
                  case None => Int(0)
                  case Some(text) => ParseInt(text);
    match Saved(store, Ambient.EntriesKey)
    case None => Some(Progress(points, 0))
    case Some(text) =>
      match entries.decode(text)
      case None => None
      case Some(list) => Some(Progress(points, |list|))
  }

  datatype Achievement = FirstStep | MindfulMaster | GratitudeGuru | StressBuster

  /** The unlock rule of each achievement; comparisons with NaN fail. */
  predicate Unlocked(p: Progress, a: Achievement) {
    match a
    case FirstStep => true
    case MindfulMaster => p.points.Exceeds(50)
    case GratitudeGuru => p.journalCount >= 5
    case StressBuster => p.points.Exceeds(20)
  }

  /** `achievements.filter(a => a.unlocked).length`. */
  function UnlockedCount(p: Progress): (n: nat)
    ensures 1 <= n <= 4
    ensures n == 4 <==> Unlocked(p, MindfulMaster) && Unlocked(p, GratitudeGuru)
    ensures n == 1 <==> !Unlocked(p, StressBuster) && !Unlocked(p, GratitudeGuru)
  {
    1 + (if Unlocked(p, MindfulMaster) then 1 else 0)
      + (if Unlocked(p, GratitudeGuru) then 1 else 0)
      + (if Unlocked(p, StressBuster) then 1 else 0)
  }

  /** The meditation badge needs more points than the game badge. */
  lemma MindfulImpliesStressBuster(p: Progress)
    ensures Unlocked(p, MindfulMaster) ==> Unlocked(p, StressBuster)
    ensures p.points.NaN? ==> UnlockedCount(p) == 1 + (if Unlocked(p, GratitudeGuru) then 1 else 0)
  {
  }

  /** The two pages disagree on the default: the journey page starts at 0
      points, but the games page writes its 1247 on its first visit, so
      afterwards both point badges are unlocked. */
  lemma AfterGamesPage(store: Store, entries: Codec<seq<string>>)
    requires Saved(store, GamesHub.PointsKey).None?
    requires Saved(store, Ambient.EntriesKey).None?
    ensures Load(store, entries) == Some(Progress(Int(0), 0))
    ensures var later := GamesHub.Mount(store).store;
            Load(later, entries).Some?
            && Load(later, entries).value.points == Int(GamesHub.StartPoints)
            && UnlockedCount(Load(later, entries).value) == 3
  {
    var h := GamesHub.Mount(store);
    LoadReadsHub(h, entries);
    assert Ambient.EntriesKey != GamesHub.PointsKey;
    assert Saved(h.store, Ambient.EntriesKey).None?;
  }

  /** The journey page reads back the counter the games page mirrors. */
  lemma LoadReadsHub(h: GamesHub.Hub, entries: Codec<seq<string>>)
    requires GamesHub.Mirrored(h)
    ensures Load(h.store, entries).Some? ==> Load(h.store, entries).value.points == h.points
  {
    ParseIntRoundTrip(h.points);
    NumToStringNonEmpty(h.points);
  }

  /** Five journal entries written on the games page unlock the journal
      badge on the next visit. */
  lemma FiveEntriesUnlockGuru(j: Ambient.Journal, drafts: seq<string>, entries: Codec<seq<string>>)
    requires Lossless(entries) && Ambient.Mirrored(j, entries)
    requires |j.entries| + |drafts| >= 5
    requires forall i :: 0 <= i < |drafts| ==> !Blank(drafts[i])
    ensures var after := Ambient.AddAll(j, drafts, entries);
            Load(after.store, entries).Some?
            && Unlocked(Load(after.store, entries).value, GratitudeGuru)
  {
    Ambient.AddAllCount(j, drafts, entries);
    AddAllMirrored(j, drafts, entries);
    var after := Ambient.AddAll(j, drafts, entries);
    Ambient.MirroredThenMount(after, entries);
    var text := entries.encode(after.entries);
    assert text != "" && entries.decode(text) == Some(after.entries);
  }

  lemma {:induction false} AddAllMirrored(j: Ambient.Journal, drafts: seq<string>, entries: Codec<seq<string>>)
    requires Ambient.Mirrored(j, entries)
    ensures Ambient.Mirrored(Ambient.AddAll(j, drafts, entries), entries)
    decreases |drafts|
  {
    if drafts != [] {
      var k := Ambient.Type(j, drafts[0]);
      Ambient.AddKeepsMirrored(k, entries);
      AddAllMirrored(Ambient.AddEntry(k, entries), drafts[1..], entries);
    }
  }
}
