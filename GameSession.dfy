/**
 * The game screen's state and its handlers. Each handler runs as one atomic step.
 * The buttons the screen renders in each phase decide which handlers may run, so the
 * handlers' preconditions state those rendering guards.
 */
module GameSession {
  import opened Wrappers
  import opened JsString
  import opened SetupRules
  import opened RoundEngine

  datatype ModalMode = Info | Confirm

  /** What the dialog says: nothing, why a round cannot start, or the end-round question. */
  datatype ModalBody = NoBody | FailureNotice(reason: StartFailure) | EndRoundPrompt

  /** The action the dialog runs on confirm (the confirm callback reference). */
  datatype PendingAction = NoAction | ResetToSetupAction

  /** A stored player name: not empty, and no whitespace at either end. */
  predicate IsPlayerName(p: string) {
    p != [] && !IsWhitespace(p[0]) && !IsWhitespace(p[|p| - 1])
  }

  /**
   * The scan inside `nextPlayer`: starting at `start`, steps over players whose flag
   * is set and stops at the first unset one, or at the player count.
   */
  method FindNextUnrevealed(revealed: seq<bool>, start: int, playerCount: int) returns (next: int)
    requires playerCount == |revealed| && 0 <= start <= playerCount
    ensures start <= next <= playerCount
    ensures next < playerCount ==> !revealed[next]
    ensures forall j :: start <= j < next ==> revealed[j]
    ensures next == NextUnrevealed(revealed, start)
  {
    next := start;
    while next < playerCount && revealed[next]
      invariant start <= next <= playerCount
      invariant NextUnrevealed(revealed, next) == NextUnrevealed(revealed, start)
    {
      next := next + 1;
    }
  }

  class Session {
    /** `CATEGORY_KEYS`, in display order. */
    const categoryKeys: seq<CategoryKey>
    /** `WORDS`, loaded once and never changed. */
    const words: Words

    var selectedCategories: Selection
    var players: seq<string>
    var newPlayerName: string
    var showImposter: bool
    var round: Option<Round>
    var phase: Phase
    var uiModalOpen: bool
    var uiModalMode: ModalMode
    var uiModalBody: ModalBody
    var pendingAction: PendingAction

    /** `activeCategoryKeys`: every key in it is listed and enabled. */
    function ActiveCategoryKeys(): (r: seq<CategoryKey>)
      reads this
      ensures |r| <= |categoryKeys|
      ensures forall i :: 0 <= i < |r| ==> r[i] in categoryKeys && Enabled(selectedCategories, r[i])
    {
      ActiveKeysListedEnabled(categoryKeys, selectedCategories);
      ActiveKeys(categoryKeys, selectedCategories)
    }

    /** What holds of a live round: it was drawn for these players and these categories. */
    ghost predicate RoundFits(r: Round)
      reads this
    {
      && |players| >= MinPlayers
      && |r.revealed| == |players|
      && 0 <= r.imposterIndex < |players|
      && r.categoryKey in ActiveCategoryKeys()
      && r.categoryKey in words && r.secretWord in words[r.categoryKey]
      && (phase == Reveal ==> RevealInvariant(r))
      && (phase == Discussion ==> r.step == Name && forall j :: 0 <= j < |r.revealed| ==> r.revealed[j])
    }

    /** The session invariant. */
    ghost predicate Valid()
      reads this
    {
      && (forall k :: k in selectedCategories <==> k in categoryKeys)
      && (forall i :: 0 <= i < |players| ==> IsPlayerName(players[i]))
      && (round.None? <==> phase == Setup)
      && (round.Some? ==> RoundFits(round.value))
      && (showImposter ==> phase == Discussion)
      && (pendingAction != NoAction ==> uiModalOpen)
      && (!uiModalOpen ==> uiModalMode == Info && uiModalBody == NoBody)
    }

    /** The component's initial state: every category enabled, no players, no round. */
    constructor (categoryKeys: seq<CategoryKey>, words: Words)
      ensures Valid()
      ensures this.categoryKeys == categoryKeys && this.words == words
      ensures selectedCategories == AllEnabled(categoryKeys)
      ensures players == [] && newPlayerName == "" && !showImposter
      ensures round == None && phase == Setup
      ensures !uiModalOpen && uiModalMode == Info && uiModalBody == NoBody && pendingAction == NoAction
    {
      this.categoryKeys := categoryKeys;
      this.words := words;
      selectedCategories := AllEnabled(categoryKeys);
      players := [];
      newPlayerName := "";
      showImposter := false;
      round := None;
      phase := Setup;
      uiModalOpen := false;
      uiModalMode := Info;
      uiModalBody := NoBody;
      pendingAction := NoAction;
    }

    /** The name field's `onChangeText`. */
    method SetNewPlayerName(text: string)
      requires Valid()
      modifies this`newPlayerName
      ensures Valid() && newPlayerName == text
    {
      newPlayerName := text;
    }

    /**
     * `toggleCategory(key)`: flips that one flag. The chips exist only on the setup
     * screen, and only for the listed keys.
     */
    method ToggleCategory(key: CategoryKey)
      requires Valid() && phase == Setup && key in categoryKeys
      modifies this`selectedCategories
      ensures Valid()
      ensures selectedCategories == Toggled(old(selectedCategories), key)
    {
      selectedCategories := Toggled(selectedCategories, key);
    }

    /**
     * `addPlayer`: appends the trimmed typed name and clears the field; when the
     * trimmed name is empty nothing changes. Duplicate names are accepted. The button
     * exists only on the setup screen.
     */
    method AddPlayer()
      requires Valid() && phase == Setup
      modifies this`players, this`newPlayerName
      ensures Valid()
      ensures Trim(old(newPlayerName)) == [] ==>
        players == old(players) && newPlayerName == old(newPlayerName)
      ensures Trim(old(newPlayerName)) != [] ==>
        players == old(players) + [Trim(old(newPlayerName))] && newPlayerName == ""
    {
      var name := Trim(newPlayerName);
      if name == [] {
        return;
      }
      players := players + [name];
      newPlayerName := "";
    }

    /** `removePlayer(idx)`; the delete buttons exist only on the setup screen. */
    method RemovePlayer(idx: int)
      requires Valid() && phase == Setup
      modifies this`players
      ensures Valid()
      ensures players == RemoveAt(old(players), idx)
    {
      players := RemoveAt(players, idx);
    }

    /** `showInfo`: opens a dismiss-only dialog with the given text. */
    method ShowInfo(body: ModalBody)
      requires Valid() && body != NoBody
      modifies this`uiModalMode, this`uiModalBody, this`uiModalOpen
      ensures Valid()
      ensures uiModalOpen && uiModalMode == Info && uiModalBody == body
    {
      uiModalMode := Info;
      uiModalBody := body;
      uiModalOpen := true;
    }

    /** `showConfirm`: opens a confirm/cancel dialog and stores the action to run on confirm. */
    method ShowConfirm(body: ModalBody, onConfirm: PendingAction)
      requires Valid() && body != NoBody
      modifies this`uiModalMode, this`uiModalBody, this`uiModalOpen, this`pendingAction
      ensures Valid()
      ensures uiModalOpen && uiModalMode == Confirm && uiModalBody == body
      ensures pendingAction == onConfirm
    {
      uiModalMode := Confirm;
      uiModalBody := body;
      pendingAction := onConfirm;
      uiModalOpen := true;
    }

    /** `closeUiModal`, which is also the cancel button: closes, blanks the dialog and drops the action. */
    method CloseUiModal()
      requires Valid()
      modifies this`uiModalMode, this`uiModalBody, this`uiModalOpen, this`pendingAction
      ensures Valid()
      ensures !uiModalOpen && uiModalBody == NoBody && pendingAction == NoAction && uiModalMode == Info
    {
      uiModalOpen := false;
      uiModalBody := NoBody;
      pendingAction := NoAction;
      uiModalMode := Info;
    }

    /** `requestResetToSetup`: asks for confirmation before ending the round. */
    method RequestResetToSetup()
      requires Valid()
      modifies this`uiModalMode, this`uiModalBody, this`uiModalOpen, this`pendingAction
      ensures Valid()
      ensures uiModalOpen && uiModalMode == Confirm && uiModalBody == EndRoundPrompt
      ensures pendingAction == ResetToSetupAction
    {
      ShowConfirm(EndRoundPrompt, ResetToSetupAction);
    }

    /**
     * `validateBeforeStart`: true exactly when `Validate` passes for the current players
     * and active categories; on failure the dismiss-only dialog names the first failed
     * check. When it passes, nothing changes.
     */
    method ValidateBeforeStart() returns (ok: bool)
      requires Valid()
      modifies this`uiModalMode, this`uiModalBody, this`uiModalOpen
      ensures Valid()
      ensures ok <==> Validate(|players|, ActiveCategoryKeys(), words) == Passed
      ensures ok ==> uiModalOpen == old(uiModalOpen) && uiModalMode == old(uiModalMode)
                     && uiModalBody == old(uiModalBody)
      ensures !ok ==>
        uiModalOpen && uiModalMode == Info
        && uiModalBody == FailureNotice(Validate(|players|, ActiveCategoryKeys(), words).reason)
    {
      if |players| < MinPlayers {
        ShowInfo(FailureNotice(TooFewPlayers));
        return false;
      }
      var active := ActiveCategoryKeys();
      if |active| == 0 {
        ShowInfo(FailureNotice(NoActiveCategory));
        return false;
      }
      for i := 0 to |active|
        invariant FirstUndersized(active, words, i) == FirstUndersized(active, words, 0)
      {
        var k := active[i];
        if k !in words || |words[k]| < MinWords {
          ShowInfo(FailureNotice(WordListTooSmall(k)));
          return false;
        }
      }
      return true;
    }

    /**
     * `startNewRound`, with the three random indices supplied by the caller. It always
     * hides the impostor's name first. If validation fails, the round and the phase stay
     * as they were and the dialog reports why. Otherwise it draws a fresh round from the
     * active categories and enters the reveal. The draws need to fit only when
     * validation passes, since they are made only then.
     */
    method StartNewRound(categoryDraw: nat, wordDraw: nat, imposterDraw: nat)
      requires Valid()
      requires Validate(|players|, ActiveCategoryKeys(), words) == Passed ==>
        DrawsFit(ActiveCategoryKeys(), words, |players|, categoryDraw, wordDraw, imposterDraw)
      modifies this`showImposter, this`round, this`phase, this`uiModalMode, this`uiModalBody, this`uiModalOpen
      ensures Valid()
      ensures !showImposter
      ensures var v := Validate(|players|, ActiveCategoryKeys(), words);
        && (v != Passed ==>
              round == old(round) && phase == old(phase)
              && uiModalOpen && uiModalMode == Info && uiModalBody == FailureNotice(v.reason))
        && (v == Passed ==>
              round == Some(DrawRound(ActiveCategoryKeys(), words, |players|, categoryDraw, wordDraw, imposterDraw))
              && phase == Reveal
              && uiModalOpen == old(uiModalOpen) && uiModalMode == old(uiModalMode)
              && uiModalBody == old(uiModalBody))
    {
      showImposter := false;
      var ok := ValidateBeforeStart();
      if !ok {
        return;
      }
      var r := DrawRound(ActiveCategoryKeys(), words, |players|, categoryDraw, wordDraw, imposterDraw);
      round := Some(r);
      phase := Reveal;
    }

    /** `resetToSetup`: drops the round and returns to setup; players and categories stay. */
    method ResetToSetup()
      requires Valid()
      modifies this`showImposter, this`round, this`phase
      ensures Valid()
      ensures round == None && phase == Setup && !showImposter
    {
      showImposter := false;
      round := None;
      phase := Setup;
    }

    /**
     * The dialog's confirm button: takes the stored action, closes the dialog (which
     * drops it), then runs it once. Only a stored reset ends the round.
     */
    method ConfirmUiModal()
      requires Valid()
      modifies this`uiModalMode, this`uiModalBody, this`uiModalOpen, this`pendingAction
      modifies this`showImposter, this`round, this`phase
      ensures Valid()
      ensures !uiModalOpen && pendingAction == NoAction
      ensures old(pendingAction) == ResetToSetupAction ==> round == None && phase == Setup && !showImposter
      ensures old(pendingAction) == NoAction ==>
        round == old(round) && phase == old(phase) && showImposter == old(showImposter)
    {
      var fn := pendingAction;
      CloseUiModal();
      if fn == ResetToSetupAction {
        ResetToSetup();
      }
    }

    /**
     * `showSecretForCurrent`: turns the current player's card over. Without a round it
     * does nothing; with one, its button exists only at the name step of the reveal.
     */
    method ShowSecretForCurrent()
      requires Valid()
      requires round.Some? ==> phase == Reveal && round.value.step == Name
      modifies this`round
      ensures Valid()
      ensures old(round).None? ==> round == old(round)
      ensures old(round).Some? ==> round == Some(old(round).value.(step := Secret))
    {
      if round.None? {
        return;
      }
      round := Some(round.value.(step := Secret));
    }

    /**
     * `nextPlayer`: marks the current player revealed, then scans forward for the
     * next unrevealed player; the round and phase afterwards are those of `Advance`.
     * Without a round it does nothing; with one, its button exists only at the secret
     * step of the reveal.
     */
    method NextPlayer()
      requires Valid()
      requires round.Some? ==> phase == Reveal && round.value.step == Secret
      modifies this`round, this`phase
      ensures Valid()
      ensures old(round).None? ==> round == old(round) && phase == old(phase)
      ensures old(round).Some? ==>
        round == Some(Advance(old(round).value).round) && phase == Advance(old(round).value).phase
    {
      if round.None? {
        return;
      }
      var r := round.value;
      var i := r.currentRevealIndex;
      var updated := r.(revealed := MarkRevealed(r.revealed, i), step := Name);
      var next := FindNextUnrevealed(updated.revealed, i + 1, |players|);
      if next >= |players| {
        round := Some(updated);
        phase := Discussion;
        return;
      }
      updated := updated.(currentRevealIndex := next);
      round := Some(updated);
    }

    /** "Show the impostor", rendered only in discussion while the name is still hidden. */
    method RevealImposter()
      requires Valid() && phase == Discussion
      modifies this`showImposter
      ensures Valid() && showImposter
    {
      showImposter := true;
    }

    /** The card the current player sees at the secret step. */
    function CurrentCard(): (c: Card)
      reads this
      requires Valid() && round.Some?
      ensures c == ImposterNotice <==> round.value.currentRevealIndex == round.value.imposterIndex
      ensures c.Word? ==> c.word == round.value.secretWord
    {
      CardFor(round.value)
    }

    /** The name announced at the name step: the player under the cursor. */
    function CurrentPlayerName(): (name: string)
      reads this
      requires Valid() && phase == Reveal
      ensures name in players && IsPlayerName(name)
      ensures name == players[round.value.currentRevealIndex]
    {
      players[round.value.currentRevealIndex]
    }

    /** The name shown once the impostor is revealed in discussion. */
    function RevealedImposterName(): (name: string)
      reads this
      requires Valid() && phase == Discussion && showImposter
      ensures name in players && IsPlayerName(name)
      ensures name == players[round.value.imposterIndex]
    {
      players[round.value.imposterIndex]
    }
  }
}
