/** The resource library: the saved-resource bookmarks kept in the store
    and the category and search filter over the catalogue. */
module ResourceLibrary {
  import opened Common

  const SavedKey := "savedResources"

  /** One catalogue entry, reduced to what the filter reads. */
  datatype Resource = Resource(id: int, title: string, category: string, tags: seq<string>)

  /** The bookmarked ids and the store they are mirrored to. */
  datatype Shelf = Shelf(ids: seq<int>, store: Store)

  /** The mount effect: a stored list is parsed (without a guard, so an
      unparsable one makes the effect throw: `None`); otherwise the list
      starts empty. */
  function Mount(store: Store, codec: Codec<seq<int>>): (r: Option<Shelf>)
    ensures Saved(store, SavedKey).None? ==> r == Some(Shelf([], store))
    ensures Saved(store, SavedKey).Some? ==>
              (r.None? <==> codec.decode(store[SavedKey]).None?)
    ensures r.Some? ==> r.value.store == store
  {
    match Saved(store, SavedKey)
    case None => Some(Shelf([], store))
    case Some(text) =>
      match codec.decode(text)
      case None => None
      case Some(ids) => Some(Shelf(ids, store))
  }

  /** The id list after `toggleSave`: a present id is removed everywhere,
      an absent one is appended. */
  function ToggleIds(ids: seq<int>, id: int): (r: seq<int>)
    ensures id in r <==> id !in ids
    ensures forall i :: 0 <= i < |ids| && ids[i] != id ==> ids[i] in r
    ensures forall i :: 0 <= i < |r| && r[i] != id ==> r[i] in ids
    ensures id !in ids ==> r == ids + [id]
    ensures id in ids ==> Subsequence(r, ids) && |r| < |ids|
    ensures forall x :: x != id ==> multiset(r)[x] == multiset(ids)[x]
  {
    if id in ids then
      var r := Filter(ids, x => x != id);
      FilterMultiset(ids, x => x != id);
      assert id !in r;
      RemovalShrinks(ids, id);
      r
    else ids + [id]
  }

  lemma {:induction false} RemovalShrinks(ids: seq<int>, id: int)
    requires id in ids
    ensures |Filter(ids, x => x != id)| < |ids|
  {
    if ids[0] != id {
      RemovalShrinks(ids[1..], id);
    }
  }

  /** `toggleSave`: the new list replaces the state and is written to the
      store under `savedResources`; no other key changes. */
  function ToggleSave(shelf: Shelf, id: int, codec: Codec<seq<int>>): (r: Shelf)
    ensures r.ids == ToggleIds(shelf.ids, id)
    ensures r.store.Keys == shelf.store.Keys + {SavedKey}
    ensures r.store[SavedKey] == codec.encode(r.ids)
    ensures forall k :: k in shelf.store && k != SavedKey ==> r.store[k] == shelf.store[k]
  {
    var ids := ToggleIds(shelf.ids, id);
    Shelf(ids, shelf.store[SavedKey := codec.encode(ids)])
  }

  /** Toggling twice restores the id's membership; for an id that was not
      saved it restores the list itself. */
  lemma ToggleTwice(ids: seq<int>, id: int)
    ensures id in ToggleIds(ToggleIds(ids, id), id) <==> id in ids
    ensures id !in ids ==> ToggleIds(ToggleIds(ids, id), id) == ids
  {
    if id !in ids {
      var p := (x: int) => x != id;
      FilterAppend(ids, [id], p);
      FilterAll(ids, p);
      assert Filter([id], p) == [];
    }
  }

  /** A duplicate-free bookmark list stays duplicate-free. */
  lemma ToggleKeepsDistinct(ids: seq<int>, id: int)
    requires NoDuplicates(ids)
    ensures NoDuplicates(ToggleIds(ids, id))
  {
    if id in ids {
      FilterNoDuplicates(ids, x => x != id);
    }
  }

  /** What a toggle writes is what the next mount reads. */
  lemma ToggleThenMount(shelf: Shelf, id: int, codec: Codec<seq<int>>)
    requires Lossless(codec)
    ensures Mount(ToggleSave(shelf, id, codec).store, codec)
            == Some(ToggleSave(shelf, id, codec))
  {
    var r := ToggleSave(shelf, id, codec);
    assert codec.decode(codec.encode(r.ids)) == Some(r.ids);
  }

  // ---------------------------------------------------------------------
  // filteredResources

  /** The category buttons: `all` admits everything, `saved` admits the
      bookmarked ids, any other id admits that category. */
  predicate MatchesCategory(r: Resource, selected: string, saved: seq<int>) {
    if selected == "all" then true
    else if selected == "saved" then r.id in saved
    else r.category == selected
  }

  /** Case-insensitive substring search over the title and the tags. */
  predicate MatchesSearch(r: Resource, term: string) {
    var needle := ToLower(term);
    Includes(ToLower(r.title), needle)
    || exists k :: 0 <= k < |r.tags| && Includes(ToLower(r.tags[k]), needle)
  }

  /** `filteredResources`: the catalogue entries passing both tests, in
      catalogue order. */
  function Filtered(catalogue: seq<Resource>, selected: string, saved: seq<int>, term: string): (r: seq<Resource>)
    ensures Subsequence(r, catalogue)
    ensures forall i :: 0 <= i < |r| ==> MatchesCategory(r[i], selected, saved) && MatchesSearch(r[i], term)
    ensures forall i :: 0 <= i < |catalogue| ==>
              (MatchesCategory(catalogue[i], selected, saved) && MatchesSearch(catalogue[i], term)
               ==> catalogue[i] in r)
    ensures forall x :: multiset(r)[x]
                        == (if MatchesCategory(x, selected, saved) && MatchesSearch(x, term)
                            then multiset(catalogue)[x] else 0)
  {
    var keep := x => MatchesCategory(x, selected, saved) && MatchesSearch(x, term);
    FilterMultiset(catalogue, keep);
    Filter(catalogue, keep)
  }

  /** The search ignores case: lower-casing the term changes nothing. */
  lemma SearchIgnoresCase(r: Resource, term: string)
    ensures MatchesSearch(r, ToLower(term)) == MatchesSearch(r, term)
  {
    ToLowerIdempotent(term);
  }

  /** An empty search term matches every entry. */
  lemma EmptySearchMatches(r: Resource)
    ensures MatchesSearch(r, "")
  {
    assert ToLower("") == "";
    IncludesEmpty(ToLower(r.title));
  }

  /** On the initial screen (`all`, empty search) the whole catalogue is
      listed, in order. */
  lemma InitialListing(catalogue: seq<Resource>, saved: seq<int>)
    ensures Filtered(catalogue, "all", saved, "") == catalogue
  {
    var p := (x: Resource) => MatchesCategory(x, "all", saved) && MatchesSearch(x, "");
    forall i | 0 <= i < |catalogue|
      ensures p(catalogue[i])
    {
      EmptySearchMatches(catalogue[i]);
    }
    FilterAll(catalogue, p);
  }
}
