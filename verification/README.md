# MindCare event handlers in Dafny

MindCare is a React single-page app for student mental wellness. Almost
all of it is markup; what carries logic is a set of small state machines
inside the components' event handlers. This project models those
machines as immutable Dafny datatypes with pure transition functions and
proves what the handlers promise:

- the session at the application root, its mirror in `localStorage`, its
  start-up hydration, and the route table's render-or-redirect rules
  (`Session`, `Gate`);
- the sign-in / registration form (`AuthForm`), the four-question intake
  assessment (`Intake`), the dashboard's welcome message and
  recommendations (`DashboardView`), and the whole onboarding path across
  them (`Onboarding`);
- the games page: the breathing pacer (`Breathing`), the meditation
  countdown and its `m:ss` clock (`Meditation`), the memory-match puzzle
  (`MemoryMatch`), the nature-sound picker and the gratitude journal
  (`Ambient`), and the mood-points counter with its rewards (`GamesHub`);
- the journey page's counters and achievements (`Journey`);
- the resource library's bookmarks and filter (`ResourceLibrary`), the
  shared shopping cart (`CartLines`) and what the wellness shop and the
  food ordering page add to it (`Shops`);
- the daily goal checklist (`Goals`), the music player's track selection
  (`Player`), the community group chat (`GroupChat`), the support live
  chat (`SupportChat`) and the doctor booking screens (`Booking`).

Shared pieces live in `Common` (an `Option`, the string store, an
abstract JSON codec, and JavaScript's `trim`, `toLowerCase`, `includes`
and `filter`) and `JsNumber` (numbers as integers plus `NaN`,
`toString`, `parseInt`, the truncating `%`, and `Math.round` of a
ratio).

Modelling choices:

- `localStorage` is a `map<string, string>`. Reads go through the
  handlers' truthiness guard, so a stored empty string reads as nothing.
- `JSON.stringify` / `JSON.parse` are an abstract `Codec` passed in as a
  parameter. A `decode` of `None` stands for `JSON.parse` throwing. The
  properties that need a faithful codec require one (`RoundTrips`,
  `Lossless`). `parseInt` and `toString` are modelled concretely, in
  decimal, because the mood-points counter round-trips through them.
- Timers are explicit events: the breathing and meditation ticks, the
  puzzle's turn-back, the support reply, and the booking confirmation's
  timeout. Replies scheduled with the same delay arrive in the order
  they were scheduled.
- The catalogues (doctors, groups, products, restaurants, playlists,
  resources) are inputs. `Date.now()` ids and `toDateString()` keys are
  parameters. The shuffled deck is any permutation of the pairs.

Where the code behaves differently from what its screens suggest, the
model follows the code:

- Hydration has no guard around `JSON.parse` (src/App.tsx:28, :31). An
  unparsable stored user stops start-up (`Session.UnparsableUserCrashes`);
  it is not treated as absent. A stored `null` (or any text parsing to a
  falsy value) leaves nobody signed in (`Session.FalsyUserSignsOut`).
- Start-up restores the session in an effect, after the first render.
  That render already redirects a protected screen to `/auth`, and the
  restored user is then sent on to `/dashboard`. Reloading any other
  protected screen therefore ends on the dashboard (`Gate.Reload`).
- `handleAssessmentComplete` does not attach the results to the user in
  memory. The dashboard shows the default welcome until the next reload
  (`Onboarding.FreshResultsNotShown`, `Onboarding.ReloadShowsResults`).
- The goal list is stored under `dailyGoals_<toDateString()>`.
- The dashboard links to `/shopping` and `/food`, but the route table
  declares neither, so no route matches them (`Gate.ShopLinksUnrouted`).
  Routes match ignoring case and trailing slashes (`Gate.RouteOf`).
- Quitting the puzzle passes 0 points, and Exit Meditation awards the
  full 100 points like a finished session (`GamesHub.ExitPaysLikeFinish`).
- The puzzle's win report is scheduled on the games page, which stays
  mounted: quitting in the second after the last pair still earns the
  100 points and closes whatever game is open then
  (`GamesHub.QuitThenLateWin`).
- The games page starts the counter at 1247 and the journey page at 0.
  After a first visit to the games page, the journey page shows 1247
  (`Journey.AfterGamesPage`).
- When the journal mounts, the save effect first writes the empty list,
  then the loaded one (`Ambient.Mount`).
- In a one-track playlist, next and previous toggle play on the current
  track when that track is in the playlist. A current track kept from
  another playlist is not found, so next plays the first track.
- The progress reads 100 exactly when every goal is done only while
  there are fewer than 200 goals. With 201 goals, 200 done already round
  to 100 (`Goals.AlmostAllRoundsUp`). The page always has four.

## Model

| member | source | states |
|---|---|---|
| Common.Saved | src/App.tsx:26-31 | A stored value reads as present exactly when the key exists and holds a non-empty string, and then it is that string |
| Common.Trim | src/components/Community.tsx:168 | `s.trim()` is no longer than `s` and, unless empty, starts and ends with a non-space |
| Common.TrimIsMiddle | src/components/Community.tsx:168 | `s.trim()` is one contiguous piece of `s`, and what it cuts from either end is whitespace only |
| Common.ToLower | src/components/Library.tsx:198-199 | Same length; each ASCII capital becomes its small letter and every other character is kept |
| Common.TrimEmptyIffBlank | src/components/Community.tsx:168 | `s.trim()` is empty exactly when every character of `s` is JavaScript whitespace, so the send guards reject exactly the blank drafts |
| Common.Includes | src/components/Library.tsx:198-199 | `s.includes(sub)` holds exactly when `sub` occurs in `s` at some position |
| Common.ToLowerIdempotent | src/components/Library.tsx:198-199 | Lower-casing twice equals lower-casing once |
| Common.Filter | src/components/Library.tsx:40 | The result is an order-preserving subsequence holding only passing elements and every passing one; how often each is kept is stated by `Common.FilterMultiset` |
| Common.FilterNoDuplicates | src/components/Library.tsx:40 | Filtering a duplicate-free list leaves it duplicate-free |
| Common.FilterMultiset | src/components/Library.tsx:40 | Each passing element is kept exactly as many times as it occurs, each failing one never |
| JsNumber.ParseIntRoundTrip | src/components/Games.tsx:436-446 | `parseInt(x.toString())` gives back `x` for every integer and for NaN |
| JsNumber.ParseInt | src/components/Games.tsx:439 | A blank text and a text starting with anything but whitespace, a sign or a digit give NaN; a text starting with a non-zero digit gives a non-negative integer |
| JsNumber.NumToString | src/components/Games.tsx:445 | NaN prints `NaN`; an integer prints as decimal digits, after a minus sign exactly when it is negative |
| JsNumber.NumToStringNonEmpty | src/components/Games.tsx:445 | A printed number is never the falsy empty string |
| JsNumber.JsRem | src/components/MusicPlayer.tsx:159 | JavaScript `%` agrees with Euclidean remainder on non-negative dividends, lies strictly between `-n` and `n`, and is never positive for a negative dividend |
| JsNumber.RoundRatio | src/components/DailyGoals.tsx:44 | `Math.round(p / q)` is the integer nearest to `p / q`, with halves rounded up |
| JsNumber.RoundRatioAtMost | src/components/DailyGoals.tsx:44 | A ratio at most `k` rounds to at most `k` |
| JsNumber.RoundRatioWhole | src/components/DailyGoals.tsx:44 | A whole ratio rounds to itself |
| Users.FlagCount | src/types/User.ts:7-13 | The number of set flags in a result is at most four |
| Session.Hydrate | src/App.tsx:22-33 | With both keys missing the initial session results. A user is loaded exactly when one is stored that does not parse to a falsy value, and it is the parsed one. The flag is set exactly when stored and it parses truthy. Start-up fails exactly when a stored value does not parse |
| Session.Login | src/App.tsx:35-40 | The user is signed in and stored; the flag is false and its key removed, whatever it was; every other key is unchanged |
| Session.Logout | src/App.tsx:42-47 | No user, flag false, both keys removed, every other key unchanged |
| Session.CompleteAssessment | src/App.tsx:49-52 | The flag is set and `'true'` stored; the in-memory user and every other key are unchanged |
| Session.LoginTwiceNotDone | src/App.tsx:35-40 | After any login the flag is false, even when it was set before |
| Session.LogoutThenHydrate | src/App.tsx:22-47 | A restart after logout finds the initial session, for any JSON functions |
| Session.LoginThenHydrate | src/App.tsx:22-40 | With a faithful codec, a restart after login restores that user with the flag unset |
| Session.CompleteThenHydrate | src/App.tsx:22-52 | A restart after login and completion restores the user with the flag set |
| Session.UnparsableUserCrashes | src/App.tsx:26-28 | A stored user that does not parse makes start-up fail rather than fall back to signed out |
| Session.FalsyUserSignsOut | src/App.tsx:26-28 | A stored user text that parses to a falsy value leaves nobody signed in; with no flag stored, start-up gives the initial session |
| Gate.RouteOfPath | src/App.tsx:74-145 | Each protected screen's path selects that screen's route |
| Gate.RouteOf | src/App.tsx:64-145 | Matching ignores ASCII case and trailing slashes: the canonical path `/` selects the landing page, `/auth` the sign-in page and `/assessment` the assessment, each exactly; a path selects no route exactly when its canonical form is none of the twelve declared paths |
| Gate.Declared | src/App.tsx:64-145 | On a canonical path, `/auth` and `/assessment` each select their own route exactly, and a path outside the twelve declared ones selects no route |
| Gate.RouteIgnoresCaseAndSlash | src/App.tsx:64-145 | Lower-casing a path or adding a trailing slash selects the same route |
| Gate.MixedCaseWithSlash | src/App.tsx:82-89 | `/Games/` selects the games screen |
| Gate.ShopLinksUnrouted | src/App.tsx:64-145 | `/shopping` and `/food` select no route |
| Gate.Reload | src/App.tsx:20-33 | On a reload the first decision is made signed out. A protected screen or the assessment ends on the restored session's home screen, `/` and `/auth` settle as under the restored session, and undeclared paths on nothing |
| Gate.ReloadLosesScreen | src/App.tsx:20-59 | An onboarded user reloading a protected screen other than the dashboard ends on the dashboard, although the restored session renders that screen |
| Gate.ReloadRestoredFirst | src/App.tsx:20-73 | With the session restored before the first render, a reload renders any screen the session may see and otherwise settles on the stage's home screen |
| Gate.ReloadRestoredFirstKeepsScreen | src/App.tsx:20-73 | With the session restored first, an onboarded reload stays on the protected screen |
| Gate.Protected | src/App.tsx:55-59 | `ProtectedRoute` renders exactly for a signed-in user who completed the assessment, sends anonymous sessions to `/auth` and pending ones to `/assessment` |
| Gate.Decide | src/App.tsx:64-73 | `/` and `/auth` render exactly when nobody is signed in, `/assessment` exactly for a signed-in user with the assessment pending, and each otherwise redirects to `/dashboard`; protected paths defer to `ProtectedRoute`; only undeclared paths match nothing |
| Gate.RedirectsSettle | src/App.tsx:55-73 | From any declared path at most two redirects reach a rendered screen, and it is the home screen of the session's stage |
| Gate.StaleFlagGoesToAuth | src/App.tsx:56-57 | A set flag with no user still redirects a protected screen to `/auth` |
| Gate.DecideByStage | src/App.tsx:55-73 | Two sessions at the same stage see the same decision on every route |
| Gate.HandlersKeepConsistent | src/App.tsx:35-52 | Login and logout keep "flag set implies user present"; so does completing the assessment from the screen that renders |
| Gate.OnboardingOrder | src/App.tsx:35-73 | After login protected screens redirect to the assessment, which renders; after completion they render and the assessment redirects; after logout they go to `/auth` |
| Intake.ResultsOf | src/components/Assessment.tsx:29-36 | The four flags map answers by position and the score counts the flags, so it lies in 0..4 |
| Intake.Answer | src/components/Assessment.tsx:21-44 | The answer is appended. The screen advances exactly while the question index is below 3. On the fourth answer the result maps the answers by position and counts them, and the stored user is the input user with only the result replaced |
| Intake.FeedReportsOnce | src/components/Assessment.tsx:21-44 | Over any run of clicks from a valid screen, completion is reported once if the run reaches the fourth answer and never otherwise; the answers are the clicks in order |
| Intake.FourAnswers | src/components/Assessment.tsx:21-42 | From the start, four answers report completion once, with positional flags, a score equal to the yes count, and storage holding the user with that result |
| Intake.FeedStore | src/components/Assessment.tsx:38-40 | On completion the store holds the input user with only the result replaced |
| AuthForm.InputChange | src/components/AuthPage.tsx:46-51 | The named field takes the new value and every other field is unchanged |
| AuthForm.Submit | src/components/AuthPage.tsx:20-44 | Sign-in falls back to "Student User" for an empty name and fixes the institution fields; registration copies name, university and year; both copy the email, carry no result, and use the stamp as id |
| AuthForm.SubmitIgnoresPassword | src/components/AuthPage.tsx:24-42 | The user built does not depend on the password, nor, when signing in, on the institution fields |
| DashboardView.WelcomeMessage | src/components/Dashboard.tsx:27-38 | Default without a result; otherwise the support message exactly when the score is at least 3, the habits message exactly at 2, and "doing well" exactly below 2 |
| DashboardView.Recommendations | src/components/Dashboard.tsx:40-51 | No result gives no recommendations, and there are never more than four |
| DashboardView.RecommendationsFollowFlags | src/components/Dashboard.tsx:44-48 | There is one recommendation per set flag. Each link appears exactly when its flag is set, none appears twice, and they come in the fixed order games, community, doctors, music |
| DashboardView.RecommendationsMatchScore | src/components/Dashboard.tsx:44-50 | When the score counts the flags, the number of recommendations equals the score |
| Onboarding.Onboard | src/App.tsx:49-52 | Signing in and answering four questions leaves that user signed in with the assessment marked complete |
| Onboarding.FreshResultsNotShown | src/App.tsx:49-52 | Right after the assessment, the dashboard sees the user without a result: default welcome, no recommendations |
| Onboarding.ReloadShowsResults | src/components/Assessment.tsx:38-42 | After a restart the stored user carries the result: one recommendation per yes answer, and the support message exactly when there are at least three |
| Breathing.NextPhase | src/components/Games.tsx:38-47 | Every phase ends in a different phase |
| Breathing.Tick | src/components/Games.tsx:32-55 | An inactive pacer does not move. Above one second the countdown drops by one. At one second or less the phase advances, the countdown restarts at 4, and a cycle is counted exactly when exhaling ends |
| Breathing.TicksKeepRange | src/components/Games.tsx:35-51 | From a countdown in 1..4, any number of ticks keeps it in 1..4 and never lowers the cycle count |
| Breathing.FourTicks | src/components/Games.tsx:35-51 | Four ticks from the start of a phase finish exactly that phase |
| Breathing.TwelveTicks | src/components/Games.tsx:35-51 | Twelve ticks from the start of inhaling complete one cycle and return to inhaling with 4 seconds |
| Breathing.CyclesAfter | src/components/Games.tsx:35-51 | `12 k` seconds after a fresh start exactly `k` cycles are done and inhaling restarts |
| Breathing.Finish | src/components/Games.tsx:70-74 | Finishing stops the pacer: no further tick changes it, and its cycles are kept |
| Meditation.Settle | src/components/Games.tsx:95-98 | The completion effect fires exactly at zero seconds and then stops the timer |
| Meditation.Step | src/components/Games.tsx:89-143 | A tick while running counts down one second and completes exactly on the last one; with no interval running a tick changes nothing. A preset sets duration and countdown and pauses. Reset rewinds to the duration and pauses. Start/pause keeps the time. Exit reports completion |
| Meditation.StepKeepsValid | src/components/Games.tsx:89-136 | The duration stays a preset and the countdown stays within 0..duration, so it never goes negative |
| Meditation.RunsToCompletion | src/components/Games.tsx:89-98 | Started with `n` seconds left, the next `n` ticks report completion exactly once and stop at zero |
| Meditation.PausedStays | src/components/Games.tsx:89-92 | A paused or finished timer does not move and reports nothing |
| Meditation.Pad2 | src/components/Games.tsx:105 | Seconds below 60 pad to exactly two characters |
| Meditation.FormatTime | src/components/Games.tsx:102-106 | The clock text is the minute digits, a colon and two more characters |
| Meditation.FormatTimeRoundTrip | src/components/Games.tsx:102-106 | Reading the clock text back gives the seconds, so the text determines them |
| Meditation.FiveMinutes | src/components/Games.tsx:102-106 | 300 seconds read `5:00` and 59 read `0:59` |
| MemoryMatch.Deal | src/components/Games.tsx:159-170 | Sixteen face-down unmatched cards, each card's id its position and its symbol the shuffled one |
| MemoryMatch.ShuffleFacts | src/components/Games.tsx:161-168 | Any shuffle of the pairs has sixteen entries, all among the eight symbols |
| MemoryMatch.ShuffleCount | src/components/Games.tsx:153-168 | Each of the eight symbols appears exactly twice in the deck, and no other symbol appears |
| MemoryMatch.Click | src/components/Games.tsx:172-205 | Clicks with two cards up, or on a turned or matched card, change nothing. Otherwise the card turns face up and no card but it and the pending one changes. A first card becomes the one pending card. An equal second card marks both matched, clears the pending list and adds a match; a different one leaves both up and unmatched and schedules turning exactly them back. The move count rises exactly on the second card, and the win is reported exactly when that pair matches and is the eighth |
| MemoryMatch.TurnBackCards | src/components/Games.tsx:197-203 | The failed pair goes face down, nothing is pending, and every other card is unchanged |
| MemoryMatch.DealValid | src/components/Games.tsx:159-170 | A fresh deal satisfies the puzzle invariant |
| MemoryMatch.ClickKeepsValid | src/components/Games.tsx:172-205 | Every click keeps the invariant: same deck, at most two pending face-up cards, matched cards face up, two matched cards per match |
| MemoryMatch.TurnBackKeepsValid | src/components/Games.tsx:197-203 | Turning the failed pair back keeps the invariant with nothing pending |
| MemoryMatch.FailedPairTurnsBack | src/components/Games.tsx:196-203 | A second card of a different symbol schedules turning exactly those two cards back |
| MemoryMatch.WonMeansAllMatched | src/components/Games.tsx:190-195 | After eight matches every card is matched and nothing is pending |
| Ambient.ToggleSound | src/components/Games.tsx:300-306 | Choosing the active sound stops it, and any other choice replaces it, so at most one plays |
| Ambient.ToggleSoundTwice | src/components/Games.tsx:300-306 | The same sound twice from silence ends silent; two different choices leave only the second |
| Ambient.Mount | src/components/Games.tsx:366-376 | Nothing stored gives an empty journal and stores the empty list. A stored list fails exactly when it does not parse. The store ends holding the loaded list |
| Ambient.AddEntry | src/components/Games.tsx:378-384 | A draft that trims to nothing is ignored; otherwise it goes in front, untrimmed, the input clears and the store holds the new list |
| Ambient.BlankDraftIgnored | src/components/Games.tsx:380 | Adding changes nothing exactly when the draft is whitespace only |
| Ambient.AddKeepsMirrored | src/components/Games.tsx:374-384 | The store keeps holding the encoded entries after an add |
| Ambient.MirroredThenMount | src/components/Games.tsx:366-376 | With a lossless codec, what the journal saved is what the next mount shows |
| Ambient.AddAllCount | src/components/Games.tsx:378-384 | Each non-blank draft adds exactly one entry |
| GamesHub.Mount | src/components/Games.tsx:433-446 | The counter is `parseInt` of the stored text, or 1247 when none is stored, and is written back; other keys are kept |
| GamesHub.RemountKeepsPoints | src/components/Games.tsx:436-446 | What the counter mirrors is what the next mount reads |
| GamesHub.Select | src/components/Games.tsx:637 | Play Now opens that game and changes nothing else |
| GamesHub.Close | src/components/Games.tsx:518 | The close button shuts the game and awards nothing |
| GamesHub.Complete | src/components/Games.tsx:501-506 | Only a positive amount is added; the game closes either way and the store mirrors the counter |
| GamesHub.Boost | src/components/Games.tsx:653-660 | A booster adds its points and leaves the open game alone |
| GamesHub.Award | src/components/Games.tsx:534-558 | Quitting the puzzle is the only ending worth 0 points, no ending is worth more than 100, and finishing or exiting the meditation and winning the puzzle are worth 100 each |
| GamesHub.ExitPaysLikeFinish | src/components/Games.tsx:142-147 | Leaving the meditation early leaves the hub exactly as finishing it, 100 points more |
| GamesHub.QuitThenLateWin | src/components/Games.tsx:193-195 | Quitting the puzzle in the second after the last pair passes 0, then the late report adds 100 and closes the game opened meanwhile |
| GamesHub.EndingEffect | src/components/Games.tsx:501-506 | Quitting leaves the counter as it was; every other ending raises a numeric counter; NaN stays NaN |
| Journey.Load | src/components/MyJourney.tsx:21-35 | Points are `parseInt` of the stored text or 0. The journal count is the stored list's length or 0. Loading fails exactly when a stored list does not parse |
| Journey.UnlockedCount | src/components/MyJourney.tsx:37-42 | Between one and four badges are unlocked: all four exactly with both the meditation and the journal badge, one exactly with neither the game nor the journal badge |
| Journey.Unlocked | src/components/MyJourney.tsx:37-42 | The first badge always; the meditation badge above 50 points, the game badge above 20, the journal badge from five entries |
| Journey.MindfulImpliesStressBuster | src/components/MyJourney.tsx:39-41 | The meditation badge implies the game badge, and NaN points unlock neither |
| Journey.AfterGamesPage | src/components/MyJourney.tsx:21-27 | With nothing stored the page shows 0 points, but after the games page has mounted it reads 1247 and shows three badges |
| Journey.LoadReadsHub | src/components/MyJourney.tsx:26-27 | The page reads back exactly the counter the games page mirrors |
| Journey.FiveEntriesUnlockGuru | src/components/MyJourney.tsx:29-40 | Five journal entries written on the games page unlock the journal badge on the next visit |
| Journey.AddAllMirrored | src/components/Games.tsx:374-376 | A run of adds keeps the store mirroring the journal |
| ResourceLibrary.Mount | src/components/Library.tsx:30-35 | No stored list gives an empty shelf; a stored one fails exactly when it does not parse; the store is untouched |
| ResourceLibrary.ToggleIds | src/components/Library.tsx:39-41 | The id is in the result exactly when it was not before. An absent id is appended. A present id is removed everywhere, keeping the others in order and strictly shortening the list. Every other id occurs exactly as often as before |
| ResourceLibrary.ToggleSave | src/components/Library.tsx:37-45 | The new list replaces the bookmarks and is written under `savedResources`; no other key changes |
| ResourceLibrary.ToggleTwice | src/components/Library.tsx:39-41 | Toggling twice restores the id's membership, and restores the list for an id that was absent |
| ResourceLibrary.ToggleKeepsDistinct | src/components/Library.tsx:39-41 | A duplicate-free bookmark list stays duplicate-free |
| ResourceLibrary.ToggleThenMount | src/components/Library.tsx:30-45 | With a lossless codec, a remount reads back what the toggle wrote |
| ResourceLibrary.Filtered | src/components/Library.tsx:191-202 | The result is an order-preserving subsequence of the catalogue holding only entries passing both the category and the case-insensitive title-or-tag search, each passing entry as often as the catalogue has it |
| ResourceLibrary.MatchesCategory | src/components/Library.tsx:192-196 | `all` admits every entry, `saved` the bookmarked ids, any other value that category |
| ResourceLibrary.MatchesSearch | src/components/Library.tsx:198-199 | The lower-cased term occurs in the lower-cased title or in some lower-cased tag |
| ResourceLibrary.SearchIgnoresCase | src/components/Library.tsx:198-199 | Lower-casing the search term changes no match |
| ResourceLibrary.EmptySearchMatches | src/components/Library.tsx:198-199 | An empty search matches every entry |
| ResourceLibrary.InitialListing | src/components/Library.tsx:25-26 | On the initial screen (category `all`, empty search) the whole catalogue is listed in order |
| CartLines.Increment | src/components/Shopping.tsx:190-194 | Every line with the id gains one; ids and copied fields are kept; other lines are unchanged |
| CartLines.Add | src/components/Shopping.tsx:187-198 | A present item is merged in place, keeping every line's fields; an absent one is appended with quantity 1; either way the item is then in the cart |
| CartLines.Bump | src/components/Shopping.tsx:205-209 | The line with the id moves by the change, clamped at zero; all other lines are unchanged |
| CartLines.UpdateQuantity | src/components/Shopping.tsx:204-210 | No line is left at zero, and an id not in a well-formed cart changes nothing |
| CartLines.Remove | src/components/Shopping.tsx:200-202 | The id is gone and every other line is kept, in order |
| CartLines.AddEffect | src/components/Shopping.tsx:187-198 | Adding keeps ids distinct and lines non-empty, raises that item's quantity and `cartItems` by exactly one, and no other quantity |
| CartLines.UpdateEffect | src/components/Shopping.tsx:204-213 | Updating keeps the cart well formed. The item's quantity becomes the old one plus the change, clamped at zero. No other quantity changes, and `cartItems` moves by the same amount |
| CartLines.RemoveEffect | src/components/Shopping.tsx:200-213 | Removing keeps the cart well formed, zeroes that item and no other, and lowers `cartItems` by its quantity |
| CartLines.AddThenDecrement | src/components/Shopping.tsx:187-210 | Adding an item and pressing minus on it gives back the cart |
| Shops.ByCategory | src/components/Shopping.tsx:183-185 | `all` keeps the catalogue; any other category keeps, in order, only the entries of that category, each as often as the catalogue has it |
| Shops.RewardsRedeemable | src/components/Shopping.tsx:288-295 | A reward is redeemable exactly when its cost is at most the fixed 1247 points; every listed reward is |
| Shops.CanRedeem | src/components/Shopping.tsx:288-295 | The redeem button is enabled exactly when the points cover the cost |
| Shops.AddProduct | src/components/Shopping.tsx:187-198 | The shop's add keeps the cart well formed and raises the product's quantity and `cartItems` by one |
| Shops.AddFood | src/components/FoodOrdering.tsx:99-112 | An item already in the cart keeps its line, restaurant tag included; a new one is appended with quantity 1 and the restaurant's name and id |
| Shops.SameIdOtherRestaurant | src/components/FoodOrdering.tsx:101-108 | Ordering the same item id from a second restaurant only raises the first line to 2, keeping the first restaurant |
| Goals.DayKey | src/components/DailyGoals.tsx:30 | The key is `dailyGoals_` followed by the day text |
| Goals.Mount | src/components/DailyGoals.tsx:29-34 | Nothing stored for the day gives the four initial goals; otherwise the parsed list, or failure when it does not parse |
| Goals.Toggle | src/components/DailyGoals.tsx:36-39 | Exactly the goals with the id flip `completed`; ids, texts and every other goal are kept |
| Goals.ToggleTwice | src/components/DailyGoals.tsx:36-39 | Toggling the same id twice gives back the list |
| Goals.ToggleCommutes | src/components/DailyGoals.tsx:36-39 | Toggles of two ids commute |
| Goals.Persist | src/components/DailyGoals.tsx:41 | The new list is written under the day's key and no other key changes |
| Goals.ToggleThenMount | src/components/DailyGoals.tsx:29-41 | With a lossless codec, a later mount on the same day loads what the toggle stored |
| Goals.Reset | src/components/DailyGoals.tsx:84-86 | Every goal becomes not completed, the day's key is removed and every other key kept |
| Goals.ResetStartsOver | src/components/DailyGoals.tsx:84-86 | After a reset nothing is done and the next mount starts from the initial goals |
| Goals.AllDoneIffCount | src/components/DailyGoals.tsx:44 | Every goal is done exactly when the completed count equals the length |
| Goals.Progress | src/components/DailyGoals.tsx:44 | An empty list gives NaN; otherwise the percentage lies in 0..100 |
| Goals.FullProgress | src/components/DailyGoals.tsx:71 | All goals done gives 100, and below 200 goals 100 means all done |
| Goals.AlmostAllRoundsUp | src/components/DailyGoals.tsx:44 | 200 of 201 goals done already read 100 |
| Player.PlayTrack | src/components/MusicPlayer.tsx:137-144 | The current track toggles play/pause; any other becomes current, tagged with the playlist name, and plays |
| Player.TogglePlay | src/components/MusicPlayer.tsx:146-148 | Only the playing flag flips |
| Player.FindIndex | src/components/MusicPlayer.tsx:152 | -1 exactly when no track has the id; otherwise the first index that has it |
| Player.NextIndex | src/components/MusicPlayer.tsx:153 | The index after `i`, wrapping from the last to the first |
| Player.PrevIndex | src/components/MusicPlayer.tsx:160 | The index before `i`, wrapping from the first to the last; for a missing track the last but one, or 0 in a one-track list |
| Player.IndexRoundTrip | src/components/MusicPlayer.tsx:152-160 | Next undoes previous and previous undoes next |
| Player.MissingTrackIndices | src/components/MusicPlayer.tsx:152-160 | A track missing from the playlist makes next go to index 0 and previous to `n - 2` (0 for one track) |
| Player.Skip | src/components/MusicPlayer.tsx:150-161 | Without a current track or playlist nothing happens. An empty playlist makes the handler fail. Otherwise the track at the wrapped index is played |
| Player.NextThenPrev | src/components/MusicPlayer.tsx:150-161 | In a playlist of two or more distinct tracks, next then previous comes back to the same track, playing |
| Player.MoodColor | src/components/MusicPlayer.tsx:164-176 | Blue exactly for calming, relaxing and peaceful, green exactly for uplifting and encouraging, after lower-casing |
| Player.MoodColorIgnoresCase | src/components/MusicPlayer.tsx:164-176 | The badge colour does not depend on letter case |
| GroupChat.Find | src/components/Community.tsx:138 | No group exactly when no id matches; otherwise the first group with that id |
| GroupChat.Seed | src/components/Community.tsx:141-163 | Three numbered messages, none the user's, the first a welcome by the helper naming the group |
| GroupChat.Join | src/components/Community.tsx:137-165 | An unknown id changes nothing; a known one selects that group and replaces the conversation by its seed |
| GroupChat.Back | src/components/Community.tsx:187 | The group closes and the conversation and input are kept |
| GroupChat.Send | src/components/Community.tsx:167-179 | A blank draft is ignored; otherwise exactly one own message is appended, numbered one past the count, with the untrimmed text, and the input clears |
| GroupChat.NumberedDistinct | src/components/Community.tsx:169-176 | Messages numbered by position have distinct ids |
| GroupChat.BlankSendIgnored | src/components/Community.tsx:168 | A send changes nothing exactly when the draft is whitespace only |
| GroupChat.StepsKeepNumbered | src/components/Community.tsx:137-179 | Joining and sending keep the messages numbered 1, 2, 3, ... |
| GroupChat.SendOne | src/components/Community.tsx:167-179 | Sending one non-blank text appends exactly that message and keeps the group |
| GroupChat.SendAllAppends | src/components/Community.tsx:167-179 | A run of non-blank sends appends the user's messages after the earlier ones, in order |
| GroupChat.OwnAt | src/components/Community.tsx:169-176 | The `i`-th appended message carries the next id, the user's name and the `i`-th text |
| GroupChat.SendAllNumbered | src/components/Community.tsx:167-179 | A run of sends keeps the conversation numbered |
| GroupChat.JoinThenSend | src/components/Community.tsx:137-179 | Joining and sending one message gives the three seed messages plus that message, numbered 4 |
| SupportChat.Send | src/components/Support.tsx:142-156 | A blank draft is ignored; otherwise the user's message is appended numbered one past the count, the input clears, and a reply is scheduled |
| SupportChat.DeliverAsWritten | src/components/Support.tsx:156-166 | The oldest scheduled reply is appended by the specialist with the id captured at send time; nothing scheduled changes nothing |
| SupportChat.Deliver | src/components/Support.tsx:156-166 | The oldest scheduled reply is appended by the specialist, numbered one past the count when it arrives |
| SupportChat.StartSupport | src/components/Support.tsx:170-175 | Only the chat option opens the chat view; the conversation is kept |
| SupportChat.Back | src/components/Support.tsx:183 | The chat view closes and the conversation is kept |
| SupportChat.InitialChat | src/components/Support.tsx:25-34 | The chat starts with exactly one message, the specialist's, numbered 1 |
| SupportChat.BlankSendIgnored | src/components/Support.tsx:143 | A send changes nothing exactly when the draft is whitespace only |
| SupportChat.StepKeepsNumbered | src/components/Support.tsx:142-166 | With replies numbered on arrival, every event keeps the conversation numbered |
| SupportChat.RunKeepsNumbered | src/components/Support.tsx:142-166 | With replies numbered on arrival, every run of events keeps the conversation numbered, so all ids are distinct |
| SupportChat.SequentialUseAgrees | src/components/Support.tsx:156-166 | When each reply arrives before the next send, the code's reply id and the arrival-time id agree |
| SupportChat.TwoQuickSendsCollide | src/components/Support.tsx:158 | As written, two sends before the first reply give the second message and the first reply the same id |
| SupportChat.TwoQuickSendsCorrected | src/components/Support.tsx:156-166 | With the reply numbered on arrival, the same events give the reply id `n + 3` and keep all ids distinct |
| Booking.Render | src/components/DoctorConsultation.tsx:108-398 | The confirmation shows exactly when booking succeeded. Otherwise the form shows exactly with a doctor and booking open, the profile with a doctor alone, and the list with no doctor |
| Booking.Step | src/components/DoctorConsultation.tsx:99-439 | Each button acts only on its own screen, and the timer only during the confirmation. No other event changes anything |
| Booking.StepFollowsScreens | src/components/DoctorConsultation.tsx:99-439 | Every event keeps the state valid and moves the screen exactly as the list, profile, form, confirmation machine says |
| Booking.RunFollowsScreens | src/components/DoctorConsultation.tsx:99-439 | Any run of events stays valid and its screen follows the abstract machine |
| Booking.BookingRoundTrip | src/components/DoctorConsultation.tsx:99-106 | Pick, open booking and book show the profile, the form and the confirmation naming the doctor; the timeout returns to the start |
| Booking.BackButtons | src/components/DoctorConsultation.tsx:142-259 | Leaving the form returns to the same doctor's profile; leaving the profile forgets the doctor |
| Booking.Defaults | src/components/DoctorConsultation.tsx:174-199 | The form starts on the first consultation type and the first slot, when the doctor has any |

## Left out

- Rendering: JSX, styling, icons, the landing page, the navigation bar and the chat widget's `window.open`.
- Audio: `HTMLAudioElement` playback, its promise rejection, and volume in the music player and the nature sounds. These are foreign calls.
- The music player's `onended` handler, which would call `handleNext` from an earlier render's closure. This depends on React's scheduling.
- `Math.random`: the deck is any permutation of the pairs. Nothing is claimed about how likely each permutation is.
- Floating point: prices, `cartTotal` and `toFixed`, and the assessment progress bar. Quantities are integers.
- `Date.now()` ids, `toDateString()` keys and `toLocaleDateString()` labels. They are parameters or left out.
- Message `time` and reply-count fields in the chats, which are display only.
- `toLowerCase` on non-ASCII letters. Only ASCII letters are folded.
- `parseInt` beyond 2^53 and hexadecimal round trips. The counter only holds decimal integers far below 2^53.
- The daily goals' stored icon elements. Only id, text and completion are modelled.
- Goals.ToggleThenMount: the round trip covers the modelled fields (id, text, completion) only. Each stored goal also carries its icon, a React element. In a production build `JSON.stringify` drops the element's symbol-valued `$$typeof`, so a remount reads back a plain object as the icon and rendering it throws. In a development build the element's owner references make the structure circular and `JSON.stringify` throws at the first toggle. Neither failure is modelled; the codec is assumed lossless on the modelled fields.
- Goals.Progress: computes `Math.round(done * 100 / total)` with exact rational arithmetic, while the page computes `done / total * 100` in binary floating point, which can land just below a half. For 23 of 40 goals done the page reads 57 where the model reads 58; for 29 of 200 it reads 14 where the model reads 15. With the page's four goals every ratio is a multiple of 25, computed exactly, and the two agree.
- Navigation away while a timer is pending. The scheduled callbacks are not cancelled on unmount; the model keeps each as an event but does not model a state update on an unmounted component. The puzzle's win report reaches the games page, which stays mounted, and is modelled (`GamesHub.QuitThenLateWin`).
- Session.Hydrate: a stored user text that parses to a truthy value other than a user object (a number, `true`, a list) is whatever the codec's `decode` makes of it.
- The catalogues' contents: doctors, groups, products, restaurants, playlists and resources are inputs. The rewards list and the initial goals are the only fixed data.
- GroupChat.Own: states only the length of the list it builds; its elements are stated by `GroupChat.OwnAt`.

## Findings

| source | as written | input that shows it | evidently intended | confidence | as-written member | corrected member |
|---|---|---|---|---|---|---|
| src/components/Support.tsx:158 | The scheduled reply takes the id `chatMessages.length + 2`, computed from the conversation at send time | Two non-blank sends before the first reply arrives: from the greeting the ids read 1, 2, 3, 3 | The reply numbered one past the conversation when it arrives, so ids stay distinct | not executed | SupportChat.TwoQuickSendsCollide | SupportChat.RunKeepsNumbered |
| src/App.tsx:23-33 | The session is restored in an effect, after a first render that decides signed out and already redirects protected screens to `/auth` | An onboarded user reloads `/games`: the first render redirects to `/auth`, which then redirects the restored user to `/dashboard` | A reload stays on the screen the restored session may see | not executed | Gate.ReloadLosesScreen | Gate.ReloadRestoredFirstKeepsScreen |
