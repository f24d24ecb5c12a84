# What-to-eat meal selector — a Dafny model

This project models the meal-selection widget of `app/page.tsx`. The user picks a dietary preference (regular, vegetarian, vegan) and a meal time (morning, lunch, dinner). The widget shows a meal from a fixed table and asks an image service for a photo of it. Refresh re-draws among the matching meals, and Back returns to the selector.

The model is written as pure functions over an immutable state record:

- `Catalog`: the meal times, preferences and meals, the fixed table (`Meals`), and the lookup of a raw meal-time key (`ParseMealTime`, `Lookup`).
- `ImageFetch`: the three image flags `mealImage`, `isLoadingImage` and `imageError`. A request's `Start` and `Complete` are modelled against an abstract outcome: a listing of photo URLs, or a failure. `Show` gives what the picture area displays.
- `Selection`: the component state and the four handlers.
  - Preference change, meal-time selection, refresh and Back are modelled.
  - The random draw `floor(r * len)` is `DrawIndex`, with `r` a real in [0, 1) passed in as a parameter.
  - `Effect` is the rule that starts an image request whenever the current meal changes to a meal.
  - `Step` is one event followed by that effect. `Run` is a whole sequence of events.
- `Widget`: the two screens (`View`) and which buttons each one offers (`Offered`). It also proves an invariant for every state reachable through those buttons.

Observations the proofs make precise:

- The image effect fires only when the current meal *changes*. React compares the effect's dependency by identity, and the table's entries are pairwise distinct (`Catalog.EntriesDistinct`). Two consequences:
  - Refresh on a one-entry list starts no request.
  - Back followed by the same meal time starts no request while the first entry is still shown.
- There is no correlation between a request and its completion. The first completion clears the loading flag even while another request is outstanding, and the last *successful* completion sets the image. A failure arriving last keeps the earlier photo and raises the error. A success never clears `imageError`, because only the start of a request does. So when a failed request overlaps a later successful one, the placeholder stays up although a photo arrived (`ImageFetch.FailureOutlivesLaterSuccess`). Nothing discards a stale completion, and the model keeps it that way.
- Back does not clear the current meal (app/page.tsx:218). Only the selected time is reset.
- The preference buttons exist only on the selector screen. So through the screens, a refresh always draws from the list of the preference the meal time was chosen under (`Widget.UiInv`). The handler on its own uses whatever preference is in force (`Selection.Refresh`).
- An unknown meal-time key clears the current meal but leaves the selected key as it was (`Selection.SelectMealTime`). The screens never offer such a key.

## Model

| member | source | states |
|---|---|---|
| Catalog.Meals | app/page.tsx:31-68 | Every one of the nine (meal time, preference) pairs has a non-empty list: two entries for regular, one for vegetarian and vegan |
| Catalog.ParseMealTime | app/page.tsx:108-111 | A raw key passes the guard exactly when it is one of the three meal-time keys, and then resolves to the meal time stored under that key. Inherited property names pass line 109 but fail line 110 |
| Catalog.KeyRoundTrip | app/page.tsx:194-199 | Each meal time's key resolves back to that meal time and is one of the selector's buttons |
| Catalog.Lookup | app/page.tsx:108-111 | A key yields a list exactly when it is a table key, and then the table's list for that meal time and preference |
| Catalog.EntriesDistinct | app/page.tsx:31-68 | No two positions of the table hold equal entries, so value equality of entries agrees with identity |
| ImageFetch.Show | app/page.tsx:237-251 | The picture area shows the spinner exactly while loading, and the placeholder exactly when not loading with the error set. Otherwise it shows the image, with an empty source when there is none |
| ImageFetch.Start | app/page.tsx:80-82 | Starting a request raises loading, clears the error and keeps the image; the picture area shows the spinner |
| ImageFetch.Complete | app/page.tsx:84-98 | A completion always ends loading. A listing with a photo sets the image to the first photo's URL. An empty listing or a failure sets the error and keeps the image |
| ImageFetch.SingleFetchShowsOutcome | app/page.tsx:80-98 | A request started and completed on its own shows its first photo on success and the placeholder otherwise |
| ImageFetch.FirstCompletionEndsLoading | app/page.tsx:96-98 | With two requests outstanding, the first completion already clears the loading flag |
| ImageFetch.LastCompletionWins | app/page.tsx:84-98 | Completions out of order: the older request's photo, arriving last, becomes the image, with no staleness check |
| ImageFetch.FailureOutlivesLaterSuccess | app/page.tsx:81-95 | A failure followed by an overlapping success sets the photo but leaves the placeholder shown, since success does not clear the error |
| Selection.InitValid | app/page.tsx:71-76 | The initial state (no selection, no meal, regular) satisfies the selection invariant |
| Selection.ChangePreference | app/page.tsx:102-104 | Changing the preference stores it and leaves the selected time, current meal and image untouched |
| Selection.SelectMealTime | app/page.tsx:107-119 | A table key selects that time and shows the first entry for the current preference. Any other key clears the meal and keeps the selected time. Preference and image are unchanged |
| Selection.DrawIndex | app/page.tsx:124 | floor(r * len) for r in [0, 1) is an index of the list, namely the integer i with i <= r * len < i + 1 |
| Selection.DrawReachesEvery | app/page.tsx:124 | Every index of the list is the draw of some r in [0, 1) |
| Selection.Refresh | app/page.tsx:122-126 | With a time selected, the new meal is the entry at index floor(r * len) of that time's list for the preference in force now. With none selected, refresh changes nothing |
| Selection.RefreshReachesEvery | app/page.tsx:122-126 | Entry j of the list in force is what every draw r with j <= r * len < j + 1 refreshes to, an interval of width 1/len, so no entry has zero probability; in particular some draw reaches each entry |
| Selection.Back | app/page.tsx:218 | Back clears the selected time and keeps the current meal, the preference and the image |
| Selection.Effect | app/page.tsx:129-133 | An image request starts exactly when the current meal changed to a meal. It uses that meal's search term, and only the image flags change |
| Selection.SelectKeepsValid | app/page.tsx:107-119 | Selecting any key keeps the invariant: the stored key is a table key and the shown meal is a table entry |
| Selection.RefreshKeepsValid | app/page.tsx:122-126 | Refreshing keeps the invariant: the drawn meal is an entry of the selected time's list |
| Selection.Handle | app/page.tsx:102-126 | Every handler keeps the invariant: the selected key is a table key and the current meal is a table entry |
| Selection.Step | app/page.tsx:128-133 | After any event the invariant holds. A request starts exactly when the current meal changed to a meal, for its search term, with loading raised |
| Selection.Run | app/page.tsx:107-133 | Any run of events keeps the invariant, starts no more requests than there are events, and requests only search terms of table entries |
| Widget.View | app/page.tsx:138-257 | The selector shows exactly when no (non-empty) key is selected. The result screen is headed by the selected key. The card shows exactly when there is a current meal, and then carries its name, its search term and the picture area |
| Widget.Offered | app/page.tsx:175-268 | The selector offers the preference buttons and exactly the three meal-time keys. The result screen offers Back, and offers Refresh exactly when the card with the current meal is shown. A request can complete on either screen |
| Widget.InitUiInv | app/page.tsx:71-73 | The initial state satisfies the screen invariant |
| Widget.OfferedStepKeepsUiInv | app/page.tsx:175-268 | Offered events keep the screen invariant. A meal-time button always reaches the result screen with a card, never the invalid branch |
| Widget.UiRun | app/page.tsx:138-263 | Through the screens' buttons and any request completions, the screen invariant holds in every state reached: whenever a time is selected, the shown meal is an entry of that time's list for the preference in force |
| Widget.ResultScreenHasCard | app/page.tsx:229-263 | On the result screen of a reachable state the card, and with it the Refresh button, is present |
| Widget.RefreshOnSingleEntryIsIdle | app/page.tsx:122-133 | With a one-entry list in force, refresh changes nothing and starts no request |
| Widget.BackThenSameTimeRefetchesNothing | app/page.tsx:129-133 | Back and then the same time, with its first entry shown, restores the same state and starts no request |
| Widget.BackThenOtherTimeFetches | app/page.tsx:107-133 | Back and then another time shows that time's first entry for the preference in force and requests its image |
| Widget.LunchVeganScenario | app/page.tsx:44-55 | Vegan then lunch shows "Vegan Salad" and requests "vegan salad lunch". A photo is then shown; an empty listing shows the placeholder and keeps the meal |
| Widget.UnknownKeyScenario | app/page.tsx:107-119 | The key "brunch" from the start leaves the state as it was and requests nothing |

## Left out

- The HTTP request to the image service, its URL, the API key and JSON decoding (app/page.tsx:8, 85-86). These are external I/O. A request is reduced to its outcome: a listing of regular-size photo URLs, or a failure. A response body that is not a non-empty list ends in the same state as an empty listing and is modelled as one. Some such bodies take the `else` branch and others throw (app/page.tsx:88-95), but `Complete` gives the same result for an empty listing and for a failure.
- `Math.random` and floating-point rounding (app/page.tsx:124). The draw is a real number in [0, 1) passed in as a parameter. The product `r * len` is exact rather than a double.
- React's scheduling: batching of state updates, the render between a handler and its effect, and interleavings of several requests beyond what a sequence of events expresses. The effect's dependency comparison is modelled by value, which agrees with identity for this table.
- `console.error` logging on an invalid selection or a failed request (app/page.tsx:94, 116). It has no effect on state.
- The search box and its `searchFocused` flag, the markup, animations and icons (app/page.tsx:77, 135-275). These are presentation only. What each screen shows is modelled only as far as `Widget.View` states it.
- next.config.ts: static-export and base-path settings, which contain no logic.
- Request completions are free events. `FetchDone` may happen with no request outstanding, and more often than requests were started. The source completes only requests `fetchMealImage` started (app/page.tsx:80-98). `Run` and `UiRun` state only invariants, and these still hold under this wider set of runs.
- Which buttons a screen offers is all `Widget.UiRun` takes from the screens. A press of a button the current screen does not show is dropped from the run rather than performed.
- Selection.Refresh: requires the selection invariant. The body needs only its first half, that the selected key is a table key. No sequence of handlers reaches any other state (Selection.Run).
