/** The music player's track selection: play/pause on the same track,
    next and previous with wrap-around over the open playlist, and the
    colour badge of a track's mood effect. Audio playback itself is a
    foreign call and not part of this model. */
module Player {
  import opened Common
  import opened JsNumber

  datatype Track = Track(id: int, title: string, moodEffect: string)

  datatype Playlist = Playlist(name: string, tracks: seq<Track>)

  /** `currentTrack`: the track spread together with its playlist's name. */
  datatype Current = Current(track: Track, playlistName: string)

  datatype PlayerState = PlayerState(current: Option<Current>, playlist: Option<Playlist>, playing: bool)

  const Start := PlayerState(None, None, false)

  /** `playTrack(track, playlist)`: the current track toggles play/pause,
      any other track becomes current and starts. */
  function PlayTrack(s: PlayerState, track: Track, p: Playlist): (r: PlayerState)
    ensures r.playlist == s.playlist
    ensures s.current.Some? && s.current.value.track.id == track.id ==>
              r == s.(playing := !s.playing)
    ensures !(s.current.Some? && s.current.value.track.id == track.id) ==>
              r.current == Some(Current(track, p.name)) && r.playing
  {
    if s.current.Some? && s.current.value.track.id == track.id then s.(playing := !s.playing)
    else s.(current := Some(Current(track, p.name)), playing := true)
  }

  /** `togglePlay`. */
  function TogglePlay(s: PlayerState): (r: PlayerState)
    ensures r.playing == !s.playing && r.current == s.current && r.playlist == s.playlist
  {
    s.(playing := !s.playing)
  }

  /** `tracks.findIndex(t => t.id === id)`: the first such index, or -1. */
  function FindIndex(tracks: seq<Track>, id: int): (i: int)
    ensures -1 <= i < |tracks|
    ensures i == -1 <==> forall k :: 0 <= k < |tracks| ==> tracks[k].id != id
    ensures i >= 0 ==> tracks[i].id == id && forall k :: 0 <= k < i ==> tracks[k].id != id
  {
    if tracks == [] then -1
    else if tracks[0].id == id then 0
    else
      var j := FindIndex(tracks[1..], id);
      if j == -1 then -1 else j + 1
  }

  /** The index `handleNext` moves to: `(i + 1) % n`. */
  function NextIndex(i: int, n: nat): (k: nat)
    requires n > 0 && -1 <= i < n
    ensures k == (if i + 1 == n then 0 else i + 1)
  {
    (i + 1) % n
  }

  /** The index `handlePrev` moves to: `(i - 1 + n) % n` with JavaScript's
      remainder, which for `i = -1, n = 1` is `-0`, that is index 0. */
  function PrevIndex(i: int, n: nat): (k: nat)
    requires n > 0 && -1 <= i < n
    ensures k == (if i >= 1 then i - 1 else if i == 0 then n - 1 else if n >= 2 then n - 2 else 0)
  {
    var m := JsRem(i - 1 + n, n);
    if m < 0 then 0 else m
  }

  /** The next index undoes the previous one and conversely. */
  lemma IndexRoundTrip(i: nat, n: nat)
    requires i < n
    ensures PrevIndex(NextIndex(i, n), n) == i
    ensures NextIndex(PrevIndex(i, n), n) == i
  {
  }

  /** A track missing from the playlist makes next go to the first track
      and previous to the last but one (the only one when there is one). */
  lemma MissingTrackIndices(n: nat)
    requires n > 0
    ensures NextIndex(-1, n) == 0
    ensures PrevIndex(-1, n) == (if n >= 2 then n - 2 else 0)
  {
  }

  /** `handleNext` (`forward`) and `handlePrev`: without a current track
      or an open playlist nothing happens; an empty playlist makes the
      handler throw (`None`); otherwise the track at the wrapped index is
      played, which toggles play/pause when it is the current one. */
  function Skip(s: PlayerState, forward: bool): (r: Option<PlayerState>)
    ensures s.current.None? || s.playlist.None? ==> r == Some(s)
    ensures s.current.Some? && s.playlist.Some? ==>
              (r.None? <==> s.playlist.value.tracks == [])
    ensures s.current.Some? && s.playlist.Some? && r.Some? ==>
              var tracks := s.playlist.value.tracks;
              var i := FindIndex(tracks, s.current.value.track.id);
              var k := if forward then NextIndex(i, |tracks|) else PrevIndex(i, |tracks|);
              r.value == PlayTrack(s, tracks[k], s.playlist.value)
  {
    if s.current.None? || s.playlist.None? then Some(s)
    else
      var p := s.playlist.value;
      var n := |p.tracks|;
      if n == 0 then None
      else
        var i := FindIndex(p.tracks, s.current.value.track.id);
        var k := if forward then NextIndex(i, n) else PrevIndex(i, n);
        Some(PlayTrack(s, p.tracks[k], p))
  }

  predicate DistinctIds(tracks: seq<Track>) {
    forall a, b :: 0 <= a < b < |tracks| ==> tracks[a].id != tracks[b].id
  }

  /** In a playlist of two or more distinct tracks, next then previous
      comes back to the same track, playing. */
  lemma NextThenPrev(s: PlayerState, i: nat)
    requires s.playlist.Some? && DistinctIds(s.playlist.value.tracks)
    requires |s.playlist.value.tracks| >= 2 && i < |s.playlist.value.tracks|
    requires s.current.Some? && s.current.value.track == s.playlist.value.tracks[i]
    ensures Skip(s, true).Some? && Skip(s.(playing := true), true).Some?
    ensures var t := Skip(s, true).value;
            Skip(t, false).Some? && Skip(t, false).value.current.value.track == s.current.value.track
            && Skip(t, false).value.playing
  {
    var tracks := s.playlist.value.tracks;
    var n := |tracks|;
    assert FindIndex(tracks, tracks[i].id) == i;
    var j := NextIndex(i, n);
    var t := Skip(s, true).value;
    assert t.current == Some(Current(tracks[j], s.playlist.value.name));
    assert FindIndex(tracks, tracks[j].id) == j;
    IndexRoundTrip(i, n);
  }

  // ---------------------------------------------------------------------
  // getMoodEffectColor

  datatype Badge = Blue | Green | Purple

  /** The badge colour of a mood effect, compared after `toLowerCase()`. */
  function MoodColor(effect: string): (b: Badge)
    ensures b == Blue <==> ToLower(effect) in {"calming", "relaxing", "peaceful"}
    ensures b == Green <==> ToLower(effect) in {"uplifting", "encouraging"}
  {
    var e := ToLower(effect);
    if e == "calming" || e == "relaxing" || e == "peaceful" then Blue
    else if e == "uplifting" || e == "encouraging" then Green
    else Purple
  }

  /** The badge ignores case. */
  lemma MoodColorIgnoresCase(effect: string)
    ensures MoodColor(ToLower(effect)) == MoodColor(effect)
  {
    ToLowerIdempotent(effect);
  }
}
