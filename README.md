# Lunch picker: race, roulette, candidate list and search extraction

This project models the logic of a lunch-picking web page that finds nearby
restaurants and picks one with a mini-game. It is written in Dafny and every
contract is proved.

- **Race engine** (`battle_arena.dfy`, module `BattleArena`). A countdown
  runs 3, 2, 1, 0 and then becomes null. After that, one animation frame at a
  time moves every racer by a random speed and clamps its progress to
  [0, 100]. The lowest-index racer that reaches 100 in a frame wins. A frame
  is one method on an array of `real`, and the random draws are inputs.
- **Roulette spinner** (`roulette_modal.dfy`, module `RouletteModal`). A
  cursor steps through the places modulo their number for `30 + offset` ticks,
  with offset in [0, 20). The delay grows by 1.25 on the last ticks and the
  loading text changes on every fifth tick. A winner is recorded after the
  last tick. The class `Spinner` holds the component state and the locals of
  its spin effect. `Spin` is one timer tick. `RunToCompletion` is the whole
  timer chain.
- **Arena candidate list and page state** (`app.dfy`, module `LunchApp`).
  The candidate list is a bounded toggle keyed by title, written as a pure
  function with lemmas. The class `AppState` holds the page's state fields and
  has methods for the search outcome, the toggle, the two buttons that open
  the arena, and the hand-over of the race winner.
- **Search service** (`gemini_service.dfy`, module `GeminiService`). It
  covers `safeString` coercion, the API-key check, the duplicate-skipping
  loop that turns grounding chunks into places (`ExtractPlaces`, proved equal
  to the reference definition `Dedup`), and the error mapping.
- **Records** (`types.dfy`, module `Types`). These mirror the source's
  `Place` and `GroundingChunk` types.

Every random draw that affects the outcome is a parameter: the roulette's
tick budget, and each racer's chaos and speed draws in a frame. The model
requires the budget draw to lie in [0, 1), as `Math.random()` returns, but
leaves the race draws unconstrained. The race's event-text draws and the
avatar draws are presentational and left out. The search request's response,
or the error it threw, is also an input. So are the position the browser
reported and the API key.

Three facts about the code are worth stating up front:

- The recorded roulette winner is `places[currentIndex]` read through the
  index that the spin effect captured when it ran. That index is always 0, so
  the recorded winner is `places[0]` whatever the cursor shows. See Findings.
- After 30 ticks over three places, the cursor is at 30 mod 3 = 0, which is
  "A". The recorded winner is also "A".
- The header badge opens the arena with a single candidate
  (`LunchApp.AppState.BadgeClicked`). Only the bottom-bar button asks for two.

## Model

| member | source | states |
|---|---|---|
| `GeminiService.SafeString` | services/geminiService.ts:7-18 | null and undefined give the fallback; a string is returned as it is; booleans and other primitives give their `String()` text; an object gives its truthy message first, else its truthy title, and the fallback only if its message is falsy |
| `GeminiService.ErrorText` | services/geminiService.ts:95 | an error's text is its message when that is truthy, else its `String(error)` text; a thrown string is its own text |
| `GeminiService.MapError` | services/geminiService.ts:95-101 | an error whose text (message, else `String(error)`) contains "403" or "API_KEY_INVALID" becomes the invalid-key error; every other error is rethrown unchanged |
| `GeminiService.Status403IsInvalidKey` | services/geminiService.ts:95-98 | any error text with "403" anywhere in it maps to the invalid-key error |
| `GeminiService.Snippet` | services/geminiService.ts:74-75 | a truthy first review snippet of the first answer source is the description; any other description is the fixed default; the description is never empty |
| `GeminiService.PlaceOf` | services/geminiService.ts:79-84 | the place keeps the maps title and uri, has distance "Nearby" and a non-empty description |
| `GeminiService.Dedup` | services/geminiService.ts:69-87 | the reference extraction: every place it yields has a non-empty title and distance "Nearby" |
| `GeminiService.DedupTitles` | services/geminiService.ts:69-87 | the titles of the extracted places are exactly the titles of the chunks that have a maps entity with a truthy title |
| `GeminiService.DedupDistinct` | services/geminiService.ts:77-78 | the titles of the extracted places are pairwise distinct |
| `GeminiService.DedupLength` | services/geminiService.ts:69-87 | there are never more places than chunks |
| `GeminiService.DedupEntries` | services/geminiService.ts:79-84 | every extracted place has distance "Nearby" and is the place of some contributing chunk (its title, uri and snippet) |
| `GeminiService.DedupPrefix` | services/geminiService.ts:69-86 | extraction only appends, so places come out in the order of each title's first chunk |
| `GeminiService.DedupKeepsFirst` | services/geminiService.ts:77-86 | the first chunk with a given title is the one whose uri and description are kept |
| `GeminiService.IgnoresNonContributing` | services/geminiService.ts:70 | a chunk with no maps entity, or with a falsy maps title (a web-only chunk, for one), adds nothing |
| `GeminiService.ExtractPlaces` | services/geminiService.ts:64-87 | the push loop guarded by `find` builds exactly `Dedup(chunks)` |
| `GeminiService.FindRestaurants` | services/geminiService.ts:20-103 | a key failing `ApiKeyIsSet` (line 26: missing, empty or "undefined") fails with the missing-key error whatever the response; a thrown request error is mapped; otherwise the text is coerced and the places are extracted, title-unique and no more than the chunks |
| `LunchApp.SearchErrorText` | App.tsx:66 | a thrown string is shown as it is; an error with a message shows the message; otherwise the fixed fallback is shown |
| `LunchApp.RemoveTitle` | App.tsx:75 | an entry is kept exactly when it was there and its title differs from the removed one |
| `LunchApp.RemoveTitleSpec` | App.tsx:75 | the filter drops every entry with the title and keeps every other entry, in order (a subsequence); it is shorter when the title was present |
| `LunchApp.ToggleCandidate` | App.tsx:73-83 | the tapped title is selected afterwards exactly when it was not selected before and fewer than 4 were selected; no entry other than the tapped place is added |
| `LunchApp.ToggleCases` | App.tsx:73-83 | a selected title is removed with the others kept in order; a new title is appended when fewer than 4 are selected; otherwise the list is unchanged |
| `LunchApp.ToggleCapacity` | App.tsx:77-81 | starting with at most 4 entries, a toggle leaves at most 4 |
| `LunchApp.ToggleKeepsDistinct` | App.tsx:74-81 | a toggle keeps the selected titles pairwise distinct |
| `LunchApp.ToggleRoundTrip` | App.tsx:74-81 | toggling a new place twice, with room for it, gives back the original list |
| `LunchApp.AppState.constructor` | App.tsx:12-27 | the page starts not loading, with no places, no error, no arena, no winner and no candidates |
| `LunchApp.AppState.BeginSearch` | App.tsx:50-55 | without a position nothing changes; otherwise loading is on and the error, places and candidates are cleared |
| `LunchApp.AppState.FinishSearch` | App.tsx:57-70 | a non-empty result becomes the places; an empty result sets the no-spots error; a thrown error sets its display text; loading is off in every case |
| `LunchApp.AppState.HandleSearch` | App.tsx:50-71 | the whole handler: nothing changes without a position; otherwise loading ends off, candidates are cleared, and either places are shown with no error or places are empty with an error |
| `LunchApp.AppState.ToggleBattleCandidate` | App.tsx:73-83 | the candidate list becomes `ToggleCandidate` of the old list, staying within capacity and title-unique |
| `LunchApp.AppState.StartRaceClicked` | App.tsx:214-221 | the bottom-bar button opens the arena exactly when at least 2 candidates are selected |
| `LunchApp.AppState.BadgeClicked` | App.tsx:101-104 | the header badge, shown with at least 1 candidate, opens the arena |
| `LunchApp.AppState.HandleBattleFinish` | App.tsx:85-88 | the arena closes and the winner handed over is shown |
| `BattleArena.NextCountdown` | components/BattleArena.tsx:46-52 | a positive countdown goes down by one; it becomes null exactly from 0 or from null |
| `BattleArena.CountdownSchedule` | components/BattleArena.tsx:42-55 | from n, the countdown reads n - k after k steps for k <= n, and null afterwards |
| `BattleArena.NullIsTerminal` | components/BattleArena.tsx:46-52 | once null, the countdown stays null |
| `BattleArena.RaceStartsOnFourthStep` | components/BattleArena.tsx:35-52 | from 3, the 0-to-null step that starts the race is the fourth step and no other |
| `BattleArena.Speed` | components/BattleArena.tsx:66-76 | for a speed draw in [0, 1), the speed is the boost exactly when chaos exceeds 0.98 and is negative (a trip) exactly when chaos is below 0.02 |
| `BattleArena.SpeedBounds` | components/BattleArena.tsx:66-76 | speeds lie in [-0.5, 3.0]; without a boost or trip, the speed lies in [0.2, 0.7) |
| `BattleArena.Clamp` | components/BattleArena.tsx:78 | the result lies in [0, 100] and equals an in-range input; it is 100 exactly when the input is at least 100 and 0 exactly when the input is at most 0 |
| `BattleArena.Advance` | components/BattleArena.tsx:64-78 | after a frame there is one progress entry per racer, each in [0, 100] |
| `BattleArena.FirstFinisher` | components/BattleArena.tsx:61-82 | the winner, if any, is at the finish line and every lower index is below it; with no winner, nobody is at the finish line |
| `BattleArena.TieGoesToLowestIndex` | components/BattleArena.tsx:80-82 | when several racers reach 100 in one frame, the winner is the lowest-index one |
| `BattleArena.UpdateRace` | components/BattleArena.tsx:58-94 | every racer is moved and clamped, including after a winner is found; the winner is the first finisher of the new progress; another frame is requested exactly when nobody finished |
| `BattleArena.Race.constructor` | components/BattleArena.tsx:33-37 | progress has one 0 per candidate, the countdown is 3, and there is no winner and no pending frame |
| `BattleArena.Race.CountdownStep` | components/BattleArena.tsx:42-55 | the countdown takes its next value; the race (first frame) starts exactly on the step from 0 |
| `BattleArena.Race.Frame` | components/BattleArena.tsx:57-98 | progress becomes `Advance` of the old progress and stays in bounds; the winner is the first finisher; frames continue exactly while there is no winner; the place handed to `onFinish` is the winner's candidate |
| `RouletteModal.PickIndex` | components/RouletteModal.tsx:57 | `floor(rand * n)` is an index below n |
| `RouletteModal.TotalSpins` | components/RouletteModal.tsx:49 | the tick budget lies in [30, 49] |
| `RouletteModal.SlowedTicksCount` | components/RouletteModal.tsx:60-63 | only ticks with total - 10 < count < total slow down, and a full run has 9 of them |
| `RouletteModal.DelayAfter` | components/RouletteModal.tsx:47-63 | the delay after any number of ticks is at least the 60 ms base delay |
| `RouletteModal.DelayNeverDecreases` | components/RouletteModal.tsx:47-63 | the delay starts at 60 and never decreases from one tick to the next |
| `RouletteModal.IntendedWinner` | components/RouletteModal.tsx:52 | the place under the cursor after the ticks, which is one of the places |
| `RouletteModal.RecordedIsShownIff` | components/RouletteModal.tsx:52-66 | for title-distinct places, the recorded place equals the displayed one exactly when the tick count is a multiple of the number of places |
| `RouletteModal.Spinner.constructor` | components/RouletteModal.tsx:44-50 | with no places no tick is scheduled; otherwise the budget is drawn, the captured cursor is 0 and the first tick is pending after 60 ms |
| `RouletteModal.Spinner.Spin` | components/RouletteModal.tsx:51-72 | cursor := (cursor + 1) mod n; the count goes up by one; the text changes only on multiples of 5; the delay is multiplied by 1.25 exactly when `SlowsDown` holds (not the last tick, and within the last 10 counts); after the last tick nothing is scheduled, spinning stops and the winner is `places[capturedIndex]` |
| `RouletteModal.Spinner.RunToCompletion` | components/RouletteModal.tsx:51-74 | exactly `totalSpins` ticks run; the cursor shows `IntendedWinner`; the recorded winner is the captured place; the final delay is 60 times 1.25 to the 9th |
| `RouletteModal.SpinnerRecordsStaleCursor` | components/RouletteModal.tsx:66 | with three places and 31 ticks, the cursor shows "B" but the recorded winner is "A" |

## Left out

- The search request and its configuration (services/geminiService.ts:30-62) are not modelled. The request calls a foreign library over the network, so its response or thrown error is an input. The search filters only shape the request's prompt, so they are left out too.
- `SafeString` abstracts `JSON.stringify`: an object carries its JSON text, or None when stringifying throws. An object's truthy non-string `message` or `title` is returned as it is by the source; the model only knows string-valued ones. Numbers carry their `String()` rendering as given text.
- Thrown values other than `Error` objects and strings (null, numbers) are not modelled.
- Geolocation, `alert` and `console` (App.tsx:30-48, 78, 217) are browser I/O. The position is a constructor parameter, and the alerts are the branches that change nothing.
- The roulette's Web Audio tick (components/RouletteModal.tsx:25-42) is cosmetic and a foreign API.
- Timers are not modelled: `setTimeout`, `requestAnimationFrame`, and the effect cleanups. Each tick or frame is an explicit method call. The 1500 ms delay before `onFinish` is modelled as the place being handed over in the finishing frame. The 300 ms reveal delay is modelled as the winner being set in the last tick.
- The roulette cleanup clears only the first timeout, so later ticks can outlive the modal. Cancelling the arena's frame on close is also not modelled. Both need a scheduler model.
- Floating point is modelled as exact `real` arithmetic. Progress, speeds, the 1.25 factor and `Math.floor(Math.random() * n)` make no claim about rounding.
- Race commentary, event texts and avatars (components/BattleArena.tsx:36-38, 72-83) are presentational. So are rendering, the close handlers and the presentational components (PlaceCard, WinnerModal, Mascot, FilterPanel).
- React's scheduling of state updates, for example a functional updater running twice, is not modelled. Each setter takes effect in program order.

## Findings

| source | as written | input that shows it | evidently intended | confidence | as-written member | corrected member |
|---|---|---|---|---|---|---|
| components/RouletteModal.tsx:66 | the winner is `places[currentIndex]`, where `currentIndex` is the value the effect captured when it ran (0), not the cursor advanced by the functional updates on line 52 | three places "A", "B", "C" and a spin draw of 0.05, so 31 ticks: the cursor stops on "B" but "A" is recorded | the winner is the place shown when the spinner stops, `places[(start + totalSpins) mod n]` | high; not executed | `RouletteModal.SpinnerRecordsStaleCursor` | `RouletteModal.IntendedWinner` |
