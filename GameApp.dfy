/**
 * The screen of `components/GameApp.tsx`: the same session as `app/app.tsx`, over
 * eight category keys, the eighth being "football_players".
 */
module GameApp {
  import opened Wrappers
  import opened SetupRules
  import opened RoundEngine
  import opened GameSession

  const CategoryKeys: seq<CategoryKey> :=
    ["places", "food", "objects", "sports", "jobs", "countries", "quran_chapters", "football_players"]

  /** The screen as it first appears: all eight categories enabled, no players, setup phase. */
  method NewSession(words: Words) returns (s: Session)
    ensures fresh(s) && s.Valid()
    ensures s.categoryKeys == CategoryKeys && s.words == words
    ensures s.ActiveCategoryKeys() == CategoryKeys
    ensures s.selectedCategories == AllEnabled(CategoryKeys)
    ensures s.players == [] && s.newPlayerName == "" && s.phase == Setup && s.round == None && !s.showImposter
    ensures !s.uiModalOpen && s.uiModalMode == Info && s.uiModalBody == NoBody && s.pendingAction == NoAction
  {
    s := new Session(CategoryKeys, words);
    ActiveKeysAllEnabled(CategoryKeys, s.selectedCategories);
  }
}
