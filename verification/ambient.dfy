/** The two small widgets of the games page that keep a little state: the
    nature-sound picker, which plays at most one sound, and the gratitude
    journal, whose entries live in the store. */
module Ambient {
  import opened Common

  /** `toggleSound(id)`: the active sound stops when chosen again, any
      other choice replaces it. */
  function ToggleSound(active: Option<string>, id: string): (r: Option<string>)
    ensures active == Some(id) ==> r == None
    ensures active != Some(id) ==> r == Some(id)
  {
    if active == Some(id) then None else Some(id)
  }

  /** Choosing the same sound twice from silence ends in silence, and two
      different choices leave only the second playing. */
  lemma ToggleSoundTwice(active: Option<string>, a: string, b: string)
    ensures ToggleSound(ToggleSound(None, a), a) == None
    ensures a != b ==> ToggleSound(ToggleSound(active, a), b) == Some(b)
  {
  }

  // ---------------------------------------------------------------------
  // The gratitude journal

  const EntriesKey := "gratitudeEntries"

  /** The list of entries (newest first), the draft in the input, and the
      store. */
  datatype Journal = Journal(entries: seq<string>, draft: string, store: Store)

  /** Mounting: the load effect parses the stored list without a guard
      (`None` when that throws); the save effect then writes the list,
      first the initial empty one and, after the re-render, the loaded
      one, so the store ends up holding the loaded list re-encoded. */
  function Mount(store: Store, codec: Codec<seq<string>>): (r: Option<Journal>)
    ensures Saved(store, EntriesKey).None? ==>
              r == Some(Journal([], "", store[EntriesKey := codec.encode([])]))
    ensures Saved(store, EntriesKey).Some? ==>
              (r.None? <==> codec.decode(store[EntriesKey]).None?)
    ensures r.Some? ==> r.value.draft == "" && r.value.store == store[EntriesKey := codec.encode(r.value.entries)]
  {
    match Saved(store, EntriesKey)
    case None => Some(Journal([], "", store[EntriesKey := codec.encode([])]))
    case Some(text) =>
      match codec.decode(text)
      case None => None
      case Some(entries) => Some(Journal(entries, "", store[EntriesKey := codec.encode(entries)]))
  }

  /** A draft is ignored exactly when it is whitespace only. */
  lemma BlankDraftIgnored(j: Journal, codec: Codec<seq<string>>)
    ensures AddEntry(j, codec) == j <==> Blank(j.draft)
  {
    TrimEmptyIffBlank(j.draft);
  }

  /** Typing in the input. */
  function Type(j: Journal, text: string): (r: Journal)
    ensures r.draft == text && r.entries == j.entries && r.store == j.store
  {
    j.(draft := text)
  }

  /** `addEntry`: a draft that trims to nothing is ignored; otherwise the
      draft, untrimmed, goes in front and the input is cleared. The save
      effect writes the new list. */
  function AddEntry(j: Journal, codec: Codec<seq<string>>): (r: Journal)
    ensures Trim(j.draft) == "" ==> r == j
    ensures Trim(j.draft) != "" ==>
              && r.entries == [j.draft] + j.entries
              && r.draft == ""
              && r.store == j.store[EntriesKey := codec.encode(r.entries)]
  {
    if Trim(j.draft) != "" then
      var entries := [j.draft] + j.entries;
      Journal(entries, "", j.store[EntriesKey := codec.encode(entries)])
    else j
  }

  /** The store holds the encoded entries, as the save effect ensures
      after every change. */
  predicate Mirrored(j: Journal, codec: Codec<seq<string>>) {
    EntriesKey in j.store && j.store[EntriesKey] == codec.encode(j.entries)
  }

  lemma AddKeepsMirrored(j: Journal, codec: Codec<seq<string>>)
    requires Mirrored(j, codec)
    ensures Mirrored(AddEntry(j, codec), codec)
  {
  }

  /** What the journal saves is what the next mount shows. */
  lemma MirroredThenMount(j: Journal, codec: Codec<seq<string>>)
    requires Lossless(codec) && Mirrored(j, codec)
    ensures Mount(j.store, codec) == Some(j.(draft := ""))
  {
    var text := codec.encode(j.entries);
    assert text != "" && codec.decode(text) == Some(j.entries);
    assert j.store[EntriesKey := text] == j.store;
  }

  /** Adding `n` non-blank drafts in a row. */
  function AddAll(j: Journal, drafts: seq<string>, codec: Codec<seq<string>>): Journal
    decreases |drafts|
  {
    if drafts == [] then j else AddAll(AddEntry(Type(j, drafts[0]), codec), drafts[1..], codec)
  }

  /** Each non-blank entry adds exactly one to the list length, the count
      the journey page reads. */
  lemma {:induction false} AddAllCount(j: Journal, drafts: seq<string>, codec: Codec<seq<string>>)
    requires forall i :: 0 <= i < |drafts| ==> !Blank(drafts[i])
    ensures |AddAll(j, drafts, codec).entries| == |j.entries| + |drafts|
    decreases |drafts|
  {
    if drafts != [] {
      TrimEmptyIffBlank(drafts[0]);
      AddAllCount(AddEntry(Type(j, drafts[0]), codec), drafts[1..], codec);
    }
  }
}
