# Who is the impostor: the session and round state machine

This project models the logic of a pass-the-phone party game. The players type in
their names and pick word categories. Then each player in turn takes the phone, sees
their name, and turns over a card. The card shows a shared secret word, or, for the
one impostor, a notice that they are the impostor. After everyone has seen their card
the group discusses, and someone can reveal the impostor's name. From there the
group starts a new round or returns to setup.

The repository has two copies of this screen. `app/app.tsx` has seven category keys.
`components/GameApp.tsx` adds `football_players` for eight. Apart from that and some
display text, the two are line for line the same. The model is one shared `Session`
class, built from a category-key list. The modules `App` and `GameApp` fix the key
list of each screen. Each handler in `components/GameApp.tsx` has a counterpart in
`app/app.tsx`, and the table cites the `app/app.tsx` lines:

| handler | app/app.tsx | components/GameApp.tsx |
|---|---|---|
| category keys and initial flags | 21, 59-67 | 16, 50-59 |
| activeCategoryKeys, toggleCategory | 82-88 | 74-80 |
| addPlayer | 90-98 | 82-90 |
| requestResetToSetup, closeUiModal, showInfo, showConfirm | 99-139 | 91-131 |
| removePlayer, validateBeforeStart | 140-161 | 132-153 |
| startNewRound, resetToSetup | 170-202 | 155-187 |
| showSecretForCurrent, nextPlayer | 203-232 | 188-217 |
| card display (isImposter) | 357-389 | 342-374 |
| discussion (show impostor) | 411-445 | 396-430 |
| dialog confirm handler | 487-492 | 472-477 |

Layout:

- `JsString.dfy`: JavaScript's `trim`, with the ECMAScript whitespace set.
- `SetupRules.dfy`: category flags, the active-key filter, player removal, and the
  three ordered validation checks.
- `RoundEngine.dfy`: the round value, how it is drawn, one "next" press (`Advance`),
  repeated presses (`Walk`), and the card shown.
- `GameSession.dfy`: the screen's state as the class `Session`, with one method per
  handler. The `Valid()` invariant says:
  - the flag map has an entry for exactly the listed keys;
  - every name is trimmed and non-empty;
  - a round exists exactly outside setup;
  - the round was drawn for the current players and enabled categories;
  - during the reveal the cursor is in range, and exactly the players before it are
    revealed;
  - in discussion every flag is set;
  - the impostor's name is shown only in discussion;
  - a pending confirm action exists only while the dialog is open.
- `App.dfy`, `GameApp.dfy`: the two screens' key lists and initial sessions. `App`
  also has a client method, `ThreePlayerFoodRound`. It takes three players and one
  four-word category through a whole round, and it uses nothing but the handlers'
  contracts.

Randomness: `randInt(n)` and `sample(arr)` become indices that the caller supplies.
`StartNewRound` takes three of them, and they must fit their lists only when
validation passes, since only then are they drawn. The word file `words.json` is a
read-only map from category key to word list.

Rendering guards: the source's handlers test very little themselves. Which of them
can run depends on which buttons the current phase renders, and the model states
that as preconditions:

- The name field, the add and delete buttons and the category chips exist only on
  the setup screen (app/app.tsx:273-332). So `AddPlayer`, `RemovePlayer` and
  `ToggleCategory` require the setup phase.
- `showSecretForCurrent` and `nextPlayer` test only that a round exists
  (app/app.tsx:204, 209). Their buttons exist only at the name step and at the
  secret step of the reveal (app/app.tsx:349, 396). So the methods require "if a
  round exists, the reveal is at that step", and they keep the code's no-op when
  there is no round.
- "Show the impostor" exists only in discussion (app/app.tsx:422-425).

The reset paths are modelled as written:

- From the name step, reset goes through the confirm dialog (app/app.tsx:350):
  `RequestResetToSetup`, then `ConfirmUiModal` or `CloseUiModal`.
- From the secret step and from discussion, the button calls `resetToSetup`
  directly (app/app.tsx:399, 443): `ResetToSetup`.

Where the code and the game's description differ, the model follows the code:

- Validation opens an information dialog, so it does change that state.
- `startNewRound` hides the impostor's name (line 171) before it validates (line
  173), so a failed start still sets `showImposter` to false.
- Ending a round mid-reveal asks for confirmation only from the name step. From the
  secret step it resets at once.

## Model

| member | source | states |
|---|---|---|
| JsString.SkipLeading | app/app.tsx:91 | the leading scan stops at the first non-whitespace index at or after its start (or the end), and everything it skipped is whitespace |
| JsString.SkipTrailing | app/app.tsx:91 | the trailing scan stops, no further back than its bound, just after the last non-whitespace character, and everything it skipped is whitespace |
| JsString.Trim | app/app.tsx:91 | `trim` returns the slice between the leading and trailing whitespace runs; it is empty exactly when the input is all whitespace, and otherwise it has no whitespace at either end |
| JsString.TrimIdempotent | app/app.tsx:91 | trimming a trimmed name changes nothing |
| SetupRules.Enabled | app/app.tsx:83 | reading the flag of a key with no entry gives a disabled category, as `selectedCategories[k]` reads `undefined` |
| SetupRules.AllEnabled | app/app.tsx:59-67 | the initial flags enable every listed key and have an entry for exactly those keys |
| SetupRules.Toggled | app/app.tsx:86-88 | toggling flips the flag of the given key and keeps every other entry |
| SetupRules.ToggleTwice | app/app.tsx:86-88 | toggling a listed key twice restores the flags |
| SetupRules.ActiveKeys | app/app.tsx:82-84 | the filter keeps at most the listed keys; what it keeps is stated by the three lemmas below |
| SetupRules.ActiveKeysMembers | app/app.tsx:82-84 | a key is active exactly when it is listed and enabled |
| SetupRules.ActiveKeysListedEnabled | app/app.tsx:82-84 | every element of the filtered list is a listed key whose flag is set |
| SetupRules.ActiveKeysArePositions | app/app.tsx:82-84 | the active keys are the enabled positions of the key list, in increasing order, and every enabled position appears |
| SetupRules.ActiveKeysAllEnabled | app/app.tsx:59-67 | when every listed key is enabled (as at start), the active keys are the whole list in order |
| SetupRules.DropIndex | app/app.tsx:141 | the `i !== idx` filter loses exactly one element when the index is in range and none otherwise |
| SetupRules.DropIndexIsSplice | app/app.tsx:141 | the index filter drops exactly the element at the given index, or nothing when the index is outside the list |
| SetupRules.RemoveAt | app/app.tsx:140-142 | removing index `idx` deletes exactly that position and keeps the rest in order; an out-of-range index leaves the list unchanged |
| SetupRules.Undersized | app/app.tsx:154-155 | a key with no word list fails the check, and a key that passes has a list of at least four words |
| SetupRules.FirstUndersized | app/app.tsx:153-159 | the scan stops at the first active key whose list is missing or has fewer than four words, and every key before it passes |
| SetupRules.Validate | app/app.tsx:144-161 | validation passes iff there are at least 3 players, at least one active category, and every active category has a list of at least 4 words; the failures are checked in that order, and a word-list failure names the first failing active key |
| RoundEngine.Sample | app/app.tsx:49-51 | a sample is an element of the array |
| RoundEngine.DrawRound | app/app.tsx:175-190 | a new round has an active category with a word list, a secret word from that list, an impostor in `[0, players)`, one unset flag per player, the cursor on 0 and the name step |
| RoundEngine.MarkRevealed | app/app.tsx:215 | marking sets the flag at the cursor and no other; an index outside the array leaves it unchanged |
| RoundEngine.NextUnrevealed | app/app.tsx:220-221 | the scan returns the first unset flag at or after its start, or the player count |
| RoundEngine.Advance | app/app.tsx:208-232 | one press sets only the current flag and returns to the name step; in the reveal the cursor moves to the first later unrevealed player; if there is none, the phase becomes discussion and the marked round is kept; word, category and impostor are unchanged |
| RoundEngine.AdvanceFromReveal | app/app.tsx:208-232 | from a valid reveal, a press keeps the invariant "cursor unrevealed, all before it revealed" and moves the cursor to the next player; discussion comes exactly from the last player, with every flag set |
| RoundEngine.Walk | app/app.tsx:208-232 | repeated presses never return to setup and keep the number of flags |
| RoundEngine.WalkAdvancesCursor | app/app.tsx:208-232 | `k` presses move the cursor `k` places while players remain, and the press on the last player enters discussion with every flag set; word, category and impostor never change |
| RoundEngine.FreshRoundVisitsInOrder | app/app.tsx:208-232 | from a fresh round of `n` players, press `k < n` leaves the cursor on player `k` with exactly players `0..k-1` revealed, and the `n`-th press enters discussion with all flags set |
| RoundEngine.CardFor | app/app.tsx:357-389 | the card is the impostor notice iff the cursor is on the impostor, and otherwise shows the secret word |
| RoundEngine.OnlyImposterSeesNotice | app/app.tsx:357-389 | over a whole reveal, only the impostor sees the notice, never the word, and every other player sees the secret word |
| GameSession.FindNextUnrevealed | app/app.tsx:220-221 | the `while` scan from `i + 1` stops at the first unrevealed player or at the player count, with every player it stepped over revealed |
| GameSession.Session.ActiveCategoryKeys | app/app.tsx:82-84 | the memoised active list is no longer than the key list, and each of its keys is listed and enabled |
| GameSession.Session.constructor | app/app.tsx:59-81 | at start every category is enabled, there are no players and no round, the phase is setup, and the dialog is closed with no pending action |
| GameSession.Session.SetNewPlayerName | app/app.tsx:293 | the name field holds the typed text |
| GameSession.Session.ToggleCategory | app/app.tsx:86-88 | the flags become the toggled flags; nothing else changes |
| GameSession.Session.AddPlayer | app/app.tsx:90-98 | an all-whitespace name leaves players and field unchanged; otherwise the trimmed name is appended (duplicates allowed) and the field is cleared |
| GameSession.Session.RemovePlayer | app/app.tsx:140-142 | the players become the list without position `idx` |
| GameSession.Session.ShowInfo | app/app.tsx:119-124 | the dialog opens in information mode with the given text |
| GameSession.Session.ShowConfirm | app/app.tsx:125-139 | the dialog opens in confirm mode and stores the action to run on confirm |
| GameSession.Session.CloseUiModal | app/app.tsx:111-117 | the dialog closes, is blanked, returns to information mode and drops the pending action |
| GameSession.Session.RequestResetToSetup | app/app.tsx:99-109 | asking to end the round opens the confirm dialog with reset as its pending action and does not touch the round |
| GameSession.Session.ValidateBeforeStart | app/app.tsx:144-161 | the result is true iff `Validate` passes; on failure the information dialog shows the first failed check; players, flags and round are untouched |
| GameSession.Session.StartNewRound | app/app.tsx:170-196 | the impostor's name is always hidden; on a failed validation the round and phase stay as they were and the dialog gives the reason; otherwise the drawn round is installed, the phase is reveal, and the dialog (open flag, mode and body) is as it was |
| GameSession.Session.ResetToSetup | app/app.tsx:198-202 | the round is dropped, the phase is setup and the impostor hidden; players and categories stay |
| GameSession.Session.ConfirmUiModal | app/app.tsx:487-492 | confirming closes the dialog and clears the pending action, then runs a stored reset exactly once; with nothing stored, the round is untouched |
| GameSession.Session.ShowSecretForCurrent | app/app.tsx:203-206 | the current card is turned over and nothing else changes; without a round it is a no-op |
| GameSession.Session.NextPlayer | app/app.tsx:208-232 | the round and phase become those of `Advance` on the old round, so the session invariant is kept; without a round it is a no-op |
| GameSession.Session.RevealImposter | app/app.tsx:422-425 | in discussion, the impostor's name becomes shown |
| GameSession.Session.CurrentCard | app/app.tsx:357-389 | the current player sees the notice iff they are the impostor, and otherwise the secret word |
| GameSession.Session.CurrentPlayerName | app/app.tsx:340-343 | the name step announces the player under the cursor, a stored trimmed non-empty name |
| GameSession.Session.RevealedImposterName | app/app.tsx:429-435 | the revealed name is that of the player at the impostor index |
| App.NewSession | app/app.tsx:59-81 | the first screen of this variant has its seven keys, all enabled and active in order, no players, an empty name field, the setup phase with no round, the impostor hidden, and the dialog closed with no pending action |
| App.ToggleChipTwice | app/app.tsx:86-88 | tapping the same category chip twice on a session leaves its flags as they were and keeps the invariant |
| GameApp.NewSession | components/GameApp.tsx:50-73 | the first screen of this variant has its eight keys, `football_players` included, all enabled and active in order, no players, an empty name field, the setup phase with no round, the impostor hidden, and the dialog closed with no pending action |

## Left out

- Rendering, buttons, gradients, scroll views, the dialog's layout, the style sheets,
  the `AppText` wrapper, font loading, splash-screen control and `Keyboard.dismiss()`.
  These draw the screen or call into libraries; they hold no game logic.
- The Arabic display text. Category display names and the round's `categoryNameAr`
  are not kept. The dialog's title, body, confirm and cancel labels become the
  `ModalBody` enumeration: nothing, a `StartFailure`, or the end-round question.
- A visible dialog blocks touches on the screen behind it. The handlers do not
  require the dialog to be closed, so the model allows more interleavings than the
  screen does.
- `randInt`'s `Math.floor(Math.random() * n)`: the model takes an index the caller
  supplies and says nothing about uniformity. Floating point is not modelled.
- The contents of `words.json`, and entries in it that are not an array of strings
  (`secretWord` is typed `any`). The dataset is an abstract map from key to word
  list.
- React's batching of state updates and the staleness of closures over state: each
  handler is one atomic step.
