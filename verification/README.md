# Valentine flow controller, in Dafny

A model of the flow controller of a single-page "will you be my valentine?"
greeting (`src/App.jsx`). The page walks through five screens: 0 (a
heart to click), 1 (the question), 2 (pick a date type), 3 (pick a place)
and 4 (the summary, with a reset button). The controller keeps four fields:
the screen index and three choice strings. Five handlers change them. A
filter decides which places screen 3 offers. The state is mirrored into
browser storage after every change and restored at startup.

The model is functional:

- `Flow.State` is the four-field record.
- The handlers are pure functions from state to state.
- The answer to the free-text prompt is an `Option<string>` argument, where `None` is a cancelled prompt.
- Browser storage is an abstract `map<string, Record>`.

Modules:

- `Wrappers` (`wrappers.dfy`) holds the `Option` datatype.
- `Catalog` (`catalog.dfy`) holds the date types, the two place catalogs and `RestaurantOptions`.
- `Flow` (`flow.dfy`) holds the state, the five handlers, and `Event`/`Apply`/`Run` for sequences of gestures.
- `View` (`view.dfy`) holds the image-name normaliser, the displayed place and the show-image test.
- `Snapshot` (`snapshot.dfy`) holds save, load and erase on the abstract store.
- `Journey` (`journey.dfy`) holds the screen gating: which gestures each screen offers. It also holds the invariant kept by runs that use only offered gestures, and the intended dinner path.

The handlers do not check the screen index, so `Flow` models them
unguarded. `Journey` states what holds when the screens drive them.

Cancelling the custom-place prompt does not leave the state unchanged.
The same goes for answering it with an empty string. Nothing is recorded,
but the handler still moves to screen 4: the step update sits outside the
`if` that tests the answer. The model follows the code here
(`Flow.CancelledCustomStillAdvances`). So a cancelled prompt is not a
no-op. One consequence: a
fresh run that cancels the prompt reaches the summary with an empty place.
The summary then asks for the image `.jpg` (`View.CancelledCustomShowsEmptyImage`).

## Model

| member | source | states |
|---|---|---|
| Catalog.RestaurantOptions | src/App.jsx:89-98 | breakfast date: the breakfast catalog plus "Custom"; dinner date: the dinner catalog plus "Custom"; combined date: both catalogs plus "Custom"; the result is empty exactly for every other date value |
| Catalog.OptionsShape | src/App.jsx:80-98 | every non-empty option list ends in "Custom" and has 5, 6 or 10 entries. No entry repeats. Every entry before "Custom" is a catalog place |
| Catalog.NoRestaurantOffersNothing | src/App.jsx:89-97 | the "Hotel n u turns" date type and the empty initial value offer no places |
| Catalog.CombinedOffersEveryPlace | src/App.jsx:80-95 | the combined date type offers a place exactly when it is a catalog place or "Custom" |
| Flow.HeartClick | src/App.jsx:38-40 | moves to screen 1 and leaves the three choices untouched |
| Flow.ValentineAnswer | src/App.jsx:42-45 | moves to screen 2 and leaves the three choices untouched |
| Flow.DateChoice | src/App.jsx:47-56 | always records the date type and keeps the custom text. "Hotel n u turns" records the sentinel place and jumps to screen 4. Any other value moves to screen 3 and keeps the place |
| Flow.RestaurantChoice | src/App.jsx:58-70 | always ends on screen 4 with the date type kept. A non-custom place is recorded and the custom text is kept. "Custom" with a given answer records "Custom" and the answer. "Custom" with a cancelled or empty answer keeps both place fields |
| Flow.Reset | src/App.jsx:72-76 | from any state: screen 0 and all three choice strings empty |
| Flow.ApplyKeepsStepInRange | src/App.jsx:38-78 | every handler, from any state, lands on a screen index in 0..4 |
| Flow.RunKeepsStepInRange | src/App.jsx:38-78 | any non-empty gesture sequence ends on a screen in 0..4. So does the empty one from an in-range state |
| Flow.ResetIdempotent | src/App.jsx:72-76 | resetting twice is resetting once |
| Flow.ResetForgetsHistory | src/App.jsx:72-76 | any gesture sequence followed by a reset yields the initial state |
| Flow.CancelledCustomStillAdvances | src/App.jsx:59-69 | a cancelled or empty custom answer changes only the screen index, to 4 |
| Flow.CustomRecordedIff | src/App.jsx:59-64 | from a state without "Custom" recorded, "Custom" is recorded if and only if the answer is neither cancelled nor empty |
| Flow.BlankAnswerRecorded | src/App.jsx:61-63 | a whitespace-only answer counts as given: "Custom" and the blank text are recorded |
| View.ToLower | src/App.jsx:207 | the result is never an upper-case letter. An upper-case letter maps to the matching lower-case one. Every other character is kept. Whitespace-ness is unchanged |
| View.Normalize | src/App.jsx:207 | the image name contains no whitespace and no upper-case letter, and is no longer than the place |
| View.NormalizeAppend | src/App.jsx:207 | normalising a concatenation is concatenating the normalised parts |
| View.NormalizeClean | src/App.jsx:207 | a string without whitespace or upper-case letters normalises to itself |
| View.NormalizeFixedIff | src/App.jsx:207 | a string is its own image name if and only if it has no whitespace and no upper-case letter |
| View.NormalizeIdempotent | src/App.jsx:249 | normalising an image name again changes nothing |
| View.NormalizeIsFilterThenLower | src/App.jsx:207 | the normaliser equals dropping the whitespace characters and then lower-casing the rest, in order |
| View.NormalizeIsLowerThenFilter | src/App.jsx:207 | the normaliser equals lower-casing first and then dropping the whitespace characters, the order the page applies them |
| View.ImageFile | src/App.jsx:207 | the image file name is the place lower-cased with every whitespace character removed, followed by ".jpg". The part before ".jpg" has no whitespace or upper-case letters |
| View.ShowImage | src/App.jsx:247 | the summary shows an image only when the shown place is the recorded place itself and not the sentinel |
| View.DisplayPlace | src/App.jsx:245 | the summary shows the custom text when "Custom" is recorded, and the recorded place otherwise |
| View.DisplayAfterPick | src/App.jsx:58-70 | after a place is picked, the summary shows that place. A given custom answer is shown as typed. A cancelled prompt shows what was shown before |
| View.ShowImageIff | src/App.jsx:245-247 | excluding a custom text that is literally "Custom": an image is shown exactly when the shown place is the recorded place and not the sentinel. The no-restaurant date type never shows one |
| View.CatalogPickShowsImage | src/App.jsx:247-249 | a catalog place picked on screen 3 is shown by name with its image |
| View.CancelledCustomShowsEmptyImage | src/App.jsx:245-249 | heart, yes, dinner, then a cancelled custom prompt: screen 4 with an empty place, and the image requested is `.jpg` |
| Snapshot.ToRecord | src/App.jsx:25-30 | the stored record carries all four fields under the names step, date, restaurant, custom |
| Snapshot.Save | src/App.jsx:24-31 | writes the record of the full state under the state key. It adds no other key and keeps every other key's value |
| Snapshot.FromRecord | src/App.jsx:15-19 | a stored record is restored into the four state fields; writing the result back gives the same record |
| Snapshot.Load | src/App.jsx:12-22 | with no snapshot stored, the startup state is the initial state. With one stored, all four fields are restored from it |
| Snapshot.Erase | src/App.jsx:77 | removes exactly the state key. Every other key is kept with its value, and no key is added |
| Snapshot.SaveLoadRoundTrip | src/App.jsx:12-31 | loading after saving gives back the identical four-field state |
| Snapshot.RecordRoundTrip | src/App.jsx:15-30 | a stored record read into a state and written back is the same record |
| Snapshot.ResetReloadsInitial | src/App.jsx:72-78 | after a reset, the next startup sees the initial state. This holds whether the key stays erased or the initial state is written back |
| Snapshot.Handle | src/App.jsx:24-31 | a gesture applies its handler. A reset first erases the snapshot. When the gesture changed a field, the new state is then stored. A reset that changed nothing leaves no snapshot. Any other gesture that changed nothing leaves the store as it was. Other keys are always kept, and no key other than the state key is added |
| Snapshot.ResetStoresDefaults | src/App.jsx:72-78 | a reset from the summary screen changes the step. So the save effect writes the default record back after the key was removed |
| Snapshot.ReloadAfterHandle | src/App.jsx:12-31 | after a reset, a reload gives the initial state whatever the store held. From a session whose store holds the live state, any gesture keeps it that way |
| Journey.InitialConsistent | src/App.jsx:6-9 | the default state (screen 0, three empty strings) satisfies the screen/choice invariant |
| Journey.Offered | src/App.jsx:119-267 | each screen offers only its own gestures, so an offered gesture comes from a screen index in 0..4. A place is offered only when the recorded date type has places |
| Journey.OfferedKeepsConsistent | src/App.jsx:119-267 | a gesture the current screen offers keeps the screen/choice invariant. Screens 0-2 hold no choices. Screen 3 holds a date type with places and no place. Screen 4 holds one of the four date types and the sentinel for "Hotel n u turns". A non-empty custom text goes with "Custom" recorded, and only then |
| Journey.OfferedRunKeepsConsistent | src/App.jsx:119-267 | every run of offered gestures keeps that invariant |
| Journey.PlaceScreenHasOptions | src/App.jsx:192-196 | on a run from the start, screen 3 is never reached with "Hotel n u turns" and always offers 5, 6 or 10 options |
| Journey.SummaryImageIff | src/App.jsx:247-249 | on a run from the start, the summary shows an image exactly when a catalog place was picked or the custom prompt was cancelled |
| Journey.StaleDateClickLeavesInvariant | src/App.jsx:47-56 | heart, yes, "Hotel n u turns", then a second date click ("Hotel n Dinner") reaches screen 3 still holding the sentinel place, outside the screen invariant |
| Journey.DinnerScenario | src/App.jsx:38-98 | heart, yes, "Hotel n Dinner", "Tsuki" passes screens 1, 2, 3 (offering the dinner catalog plus "Custom") and ends on 4 with "Tsuki" shown with `tsuki.jpg`. Every gesture on this path is offered by its screen |

## Left out

- Rendering, animation and the `showContent` gate (src/App.jsx:100-272): presentation only. Only the screen gating of the handlers is kept, in `Journey.Offered`.
- Sound playback (src/App.jsx:33-36): an asynchronous foreign side effect. Its failure is swallowed, and it never changes the state.
- Real browser storage and JSON text: the store is an abstract map of records. A corrupt stored string makes the parse throw; that path is not modelled.
- React effect scheduling: on mount, the save effect first writes the default values and then the loaded ones; the mount is not modelled. `Snapshot.Handle` runs the save effect after each gesture, and only when a field changed. So a reset erases the key and has the defaults written back whenever the reset changed a field. Batching and render timing are not modelled.
- Journey.Offered: assumes only the current screen's buttons can be clicked. The animation keeps the exiting screen mounted for its 0.5 s exit (src/App.jsx:108-116). A second click there, such as picking a second date type, could reach a state outside `Journey.Consistent`, for example screen 3 still holding the sentinel place (`Journey.StaleDateClickLeavesInvariant`). The unguarded handlers in `Flow` cover such clicks, but the invariant does not.
- The prompt as a blocking browser call: replaced by the `Option<string>` argument.
- View.Normalize: models ASCII lower-casing and the six ASCII whitespace characters only. Non-ASCII characters are kept unchanged. The browser also lower-cases non-ASCII letters and strips Unicode spaces.
- Flow.State: the step is an unbounded integer, and a restored snapshot may hold any value. Only the handlers are shown to land in 0..4.
