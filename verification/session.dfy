/** The application root: the in-memory session (signed-in user and the
    "assessment completed" flag), its hydration from storage at start-up,
    and the login, logout and assessment-complete handlers that change it
    and mirror it into storage. */
module Session {
  import opened Common
  import opened Users

  const UserKey := "mindcare_user"
  const CompletedKey := "mindcare_assessment_completed"

  /** What the root component holds in React state. */
  datatype State = State(user: Option<User>, assessmentDone: bool)

  /** Both `useState` initial values. */
  const Initial := State(None, false)

  /** The session together with the storage it mirrors. */
  datatype App = App(state: State, store: Store)

  /** The JSON handling of the two session keys. `falsy` holds of a text
      that parses to a falsy value (`null`, `false`, `0`, `""`), which
      `setUser` stores as "nobody signed in"; `user.decode` covers every
      other text. `flag` is `JSON.parse` of the stored flag followed by the
      truthiness test the gate applies to it; `None` means `JSON.parse`
      throws. */
  datatype Json = Json(user: Codec<User>, falsy: string -> bool, flag: string -> Option<bool>)

  /** What the handlers rely on from the JSON functions: a stringified
      user parses back, is never the empty string (an object literal is at
      least `{}`) nor a falsy value, and the stored `'true'` parses to a
      truthy value. */
  ghost predicate Faithful(j: Json) {
    && RoundTrips(j.user)
    && (forall u :: j.user.encode(u) != "" && !j.falsy(j.user.encode(u)))
    && j.flag("true") == Some(true)
  }

  /** The start-up effect. Each key is read independently and skipped when
      missing or empty. A user text that parses to a falsy value leaves
      nobody signed in. There is no guard around `JSON.parse`: a value that
      does not parse makes the effect throw, which is `None` here. */
  function Hydrate(store: Store, j: Json): (r: Option<State>)
    ensures Saved(store, UserKey).None? && Saved(store, CompletedKey).None? ==> r == Some(Initial)
    ensures r.Some? ==> (r.value.user.Some? <==> Saved(store, UserKey).Some? && !j.falsy(store[UserKey]))
    ensures r.Some? && r.value.user.Some? ==> j.user.decode(store[UserKey]) == r.value.user
    ensures r.Some? ==> (r.value.assessmentDone
                         <==> Saved(store, CompletedKey).Some? && j.flag(store[CompletedKey]) == Some(true))
    ensures r.None? <==> (Saved(store, UserKey).Some? && !j.falsy(store[UserKey])
                          && j.user.decode(store[UserKey]).None?)
                         || (Saved(store, CompletedKey).Some? && j.flag(store[CompletedKey]).None?)
  {
    var user: Option<Option<User>> :=
      match Saved(store, UserKey)
      case None => Some(None)
      case Some(text) =>
        if j.falsy(text) then Some(None)
        else
          (match j.user.decode(text)
           case None => None
           case Some(u) => Some(Some(u)));
    var done: Option<bool> :=
      match Saved(store, CompletedKey)
      case None => Some(false)
      case Some(text) => j.flag(text);
    if user.None? || done.None? then None
    else Some(State(user.value, done.value))
  }

  /** `handleLogin`: sign the user in, persist them, and force a fresh
      assessment by clearing the flag in memory and in storage. */
  function Login(a: App, u: User, j: Json): (r: App)
    ensures r.state.user == Some(u) && !r.state.assessmentDone
    ensures UserKey in r.store && r.store[UserKey] == j.user.encode(u)
    ensures CompletedKey !in r.store
    ensures forall k :: k != UserKey && k != CompletedKey ==>
              (k in r.store <==> k in a.store) && (k in r.store ==> r.store[k] == a.store[k])
  {
    App(State(Some(u), false), a.store[UserKey := j.user.encode(u)] - {CompletedKey})
  }

  /** `handleLogout`: forget the user and the flag, and remove both keys. */
  function Logout(a: App): (r: App)
    ensures r.state.user.None? && !r.state.assessmentDone
    ensures UserKey !in r.store && CompletedKey !in r.store
    ensures forall k :: k != UserKey && k != CompletedKey ==>
              (k in r.store <==> k in a.store) && (k in r.store ==> r.store[k] == a.store[k])
  {
    App(Initial, a.store - {UserKey, CompletedKey})
  }

  /** `handleAssessmentComplete`: set the flag and store `'true'`. The
      in-memory user is left as it was; the results reach storage only
      through the assessment screen's own write. */
  function CompleteAssessment(a: App): (r: App)
    ensures r.state.assessmentDone
    ensures r.state.user == a.state.user
    ensures CompletedKey in r.store && r.store[CompletedKey] == "true"
    ensures forall k :: k != CompletedKey ==>
              (k in r.store <==> k in a.store) && (k in r.store ==> r.store[k] == a.store[k])
  {
    App(a.state.(assessmentDone := true), a.store[CompletedKey := "true"])
  }

  /** Logging in resets the flag whatever it was, so logging in twice never
      leaves it set. */
  lemma LoginTwiceNotDone(a: App, u: User, v: User, j: Json)
    ensures !Login(Login(a, u, j), v, j).state.assessmentDone
    ensures !Login(a.(state := a.state.(assessmentDone := true)), u, j).state.assessmentDone
  {
  }

  /** Restarting after a logout finds no one signed in and no flag, for any
      JSON functions at all. */
  lemma LogoutThenHydrate(a: App, j: Json)
    ensures Hydrate(Logout(a).store, j) == Some(Initial)
  {
  }

  /** Restarting after a login restores the same user with the flag unset. */
  lemma LoginThenHydrate(a: App, u: User, j: Json)
    requires Faithful(j)
    ensures Hydrate(Login(a, u, j).store, j) == Some(State(Some(u), false))
  {
    var s := Login(a, u, j).store;
    assert j.user.encode(u) != "";
    assert j.user.decode(j.user.encode(u)) == Some(u);
    assert Saved(s, UserKey) == Some(j.user.encode(u));
  }

  /** Restarting after login and completion restores the user and the set
      flag. */
  lemma CompleteThenHydrate(a: App, u: User, j: Json)
    requires Faithful(j)
    ensures Hydrate(CompleteAssessment(Login(a, u, j)).store, j) == Some(State(Some(u), true))
  {
    var s := CompleteAssessment(Login(a, u, j)).store;
    assert j.user.encode(u) != "";
    assert j.user.decode(j.user.encode(u)) == Some(u);
    assert Saved(s, UserKey) == Some(j.user.encode(u));
    assert Saved(s, CompletedKey) == Some("true");
  }

  /** A value under the user key that does not parse stops start-up; the
      source has no fallback to "signed out". */
  lemma UnparsableUserCrashes(store: Store, j: Json)
    requires UserKey in store && store[UserKey] != ""
    requires !j.falsy(store[UserKey]) && j.user.decode(store[UserKey]).None?
    ensures Hydrate(store, j).None?
  {
  }

  /** A stored user text such as `null` parses without throwing but to a
      falsy value, so start-up leaves nobody signed in, and with no flag
      stored the session is the initial one. */
  lemma FalsyUserSignsOut(store: Store, j: Json)
    requires UserKey in store && store[UserKey] != "" && j.falsy(store[UserKey])
    ensures Hydrate(store, j).Some? ==> Hydrate(store, j).value.user.None?
    ensures Saved(store, CompletedKey).None? ==> Hydrate(store, j) == Some(Initial)
  {
  }

  /** The flag is only ever set for a signed-in user. Every handler keeps
      this (`Gate.HandlersKeepConsistent`); a store edited by hand can
      break it. */
  predicate Consistent(s: State) {
    s.assessmentDone ==> s.user.Some?
  }
}
