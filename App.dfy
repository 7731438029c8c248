/** The screen of `app/app.tsx`: the shared session over its seven category keys. */
module App {
  import opened Wrappers
  import opened SetupRules
  import opened RoundEngine
  import opened GameSession

  const CategoryKeys: seq<CategoryKey> :=
    ["places", "food", "objects", "sports", "jobs", "countries", "quran_chapters"]

  /** The screen as it first appears: all seven categories enabled, no players, setup phase. */
  method NewSession(words: Words) returns (s: Session)
    ensures fresh(s) && s.Valid()
    ensures s.categoryKeys == CategoryKeys && s.words == words
    ensures s.ActiveCategoryKeys() == CategoryKeys
    ensures s.selectedCategories == AllEnabled(CategoryKeys)
    ensures s.players == [] && s.newPlayerName == "" && s.phase == Setup && s.round == None && !s.showImposter
    ensures !s.uiModalOpen && s.uiModalMode == Info && s.uiModalBody == NoBody && s.pendingAction == NoAction
  {
    s := new Session(CategoryKeys, words);
    ActiveKeysAllEnabled(CategoryKeys, s.selectedCategories);
  }

  /** Tapping the same category chip twice leaves the selection as it was. */
  method ToggleChipTwice(s: Session, k: CategoryKey)
    requires s.Valid() && s.phase == Setup && k in s.categoryKeys
    modifies s
    ensures s.Valid() && s.selectedCategories == old(s.selectedCategories)
  {
    ghost var before := s.selectedCategories;
    s.ToggleCategory(k);
    s.ToggleCategory(k);
    ToggleTwice(before, k);
  }

  /**
   * Three players and only the food category, whose list has four words: the round
   * draws a food word and an impostor among the three, and the three presses of
   * "next", one after each card, end in discussion with every flag set.
   */
  method ThreePlayerFoodRound(s: Session, imposterDraw: nat, wordDraw: nat)
    requires s.Valid() && s.phase == Setup
    requires s.players == ["A", "B", "C"] && s.ActiveCategoryKeys() == ["food"]
    requires "food" in s.words && |s.words["food"]| == 4
    requires imposterDraw < 3 && wordDraw < 4
    modifies s
  {
    s.StartNewRound(0, wordDraw, imposterDraw);
    assert s.phase == Reveal && s.round.value.secretWord in s.words["food"];
    assert s.round.value.imposterIndex in {0, 1, 2};
    s.ShowSecretForCurrent();
    s.NextPlayer();
    assert s.phase == Reveal && s.round.value.currentRevealIndex == 1;
    s.ShowSecretForCurrent();
    s.NextPlayer();
    assert s.phase == Reveal && s.round.value.currentRevealIndex == 2;
    s.ShowSecretForCurrent();
    s.NextPlayer();
    assert s.phase == Discussion;
    assert s.round.value.revealed == [true, true, true];
  }
}
