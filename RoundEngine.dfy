/**
 * The round: how one is drawn, how the cursor moves from player to player while
 * each sees their card, and what the card shows.
 */
module RoundEngine {
  import opened SetupRules

  datatype Phase = Setup | Reveal | Discussion

  /** The current player sees either their name only, or the secret card. */
  datatype Step = Name | Secret

  /**
   * `RoundState`, without its display name: the category, the secret word, the
   * impostor's index, one revealed flag per player, the cursor and the step.
   */
  datatype Round = Round(
    categoryKey: CategoryKey,
    secretWord: string,
    imposterIndex: int,
    revealed: seq<bool>,
    currentRevealIndex: int,
    step: Step)

  /** The round and the phase after one `nextPlayer`. */
  datatype Transition = Transition(round: Round, phase: Phase)

  /** What the secret card shows: the impostor notice, or the word. */
  datatype Card = ImposterNotice | Word(word: string)

  /**
   * `sample(arr)`, with the random index supplied by the caller: it picks an element
   * of the array. `randInt(n)` is that index itself.
   */
  function Sample<T>(arr: seq<T>, draw: nat): (x: T)
    requires draw < |arr|
    ensures x in arr
  {
    arr[draw]
  }

  /**
   * During the reveal, the cursor is a valid index and exactly the players before it
   * have seen their card.
   */
  predicate RevealInvariant(r: Round) {
    && 0 <= r.currentRevealIndex < |r.revealed|
    && forall j :: 0 <= j < |r.revealed| ==> (r.revealed[j] <==> j < r.currentRevealIndex)
  }

  /** The random draws fit the lists they index. */
  predicate DrawsFit(active: seq<CategoryKey>, words: Words, playerCount: nat,
                     categoryDraw: nat, wordDraw: nat, imposterDraw: nat)
  {
    && categoryDraw < |active|
    && active[categoryDraw] in words
    && wordDraw < |words[active[categoryDraw]]|
    && imposterDraw < playerCount
  }

  /**
   * The round `startNewRound` builds: a sampled active category, a sampled word of it,
   * a random impostor, no flag set, the cursor on player 0 and the name step.
   */
  function DrawRound(active: seq<CategoryKey>, words: Words, playerCount: nat,
                     categoryDraw: nat, wordDraw: nat, imposterDraw: nat): (r: Round)
    requires DrawsFit(active, words, playerCount, categoryDraw, wordDraw, imposterDraw)
    ensures r.categoryKey in active && r.categoryKey in words
    ensures r.secretWord in words[r.categoryKey]
    ensures 0 <= r.imposterIndex < playerCount
    ensures |r.revealed| == playerCount && forall j :: 0 <= j < playerCount ==> !r.revealed[j]
    ensures r.currentRevealIndex == 0 && r.step == Name
    ensures RevealInvariant(r)
  {
    var key := Sample(active, categoryDraw);
    var secret := Sample(words[key], wordDraw);
    Round(key, secret, imposterDraw, seq(playerCount, _ => false), 0, Name)
  }

  /** `revealed.map((v, idx) => idx === i ? true : v)`. */
  function MarkRevealed(revealed: seq<bool>, i: int): (r: seq<bool>)
    ensures |r| == |revealed|
    ensures 0 <= i < |revealed| ==> r == revealed[i := true]
    ensures !(0 <= i < |revealed|) ==> r == revealed
  {
    seq(|revealed|, idx requires 0 <= idx < |revealed| => if idx == i then true else revealed[idx])
  }

  /** The scan of `nextPlayer`: the first index at or after `from` whose flag is not set, or `|revealed|`. */
  function NextUnrevealed(revealed: seq<bool>, from: nat): (next: nat)
    requires from <= |revealed|
    ensures from <= next <= |revealed|
    ensures next < |revealed| ==> !revealed[next]
    ensures forall j :: from <= j < next ==> revealed[j]
    decreases |revealed| - from
  {
    if from < |revealed| && revealed[from] then NextUnrevealed(revealed, from + 1) else from
  }

  /**
   * `nextPlayer` on a round: marks the current player revealed and no one else, goes
   * back to the name step, and moves the cursor to the first later unrevealed player;
   * when there is none, the round is kept as marked and the phase becomes discussion.
   */
  function Advance(r: Round): (t: Transition)
    requires 0 <= r.currentRevealIndex < |r.revealed|
    ensures t.round.revealed == r.revealed[r.currentRevealIndex := true]
    ensures t.round.step == Name
    ensures t.round.categoryKey == r.categoryKey && t.round.secretWord == r.secretWord
    ensures t.round.imposterIndex == r.imposterIndex
    ensures t.phase == Reveal ==>
      && r.currentRevealIndex < t.round.currentRevealIndex < |r.revealed|
      && !t.round.revealed[t.round.currentRevealIndex]
      && forall j :: r.currentRevealIndex < j < t.round.currentRevealIndex ==> r.revealed[j]
    ensures t.phase == Discussion ==>
      && t.round.currentRevealIndex == r.currentRevealIndex
      && forall j :: r.currentRevealIndex < j < |r.revealed| ==> r.revealed[j]
    ensures t.phase != Setup
  {
    var i := r.currentRevealIndex;
    var updated := r.(revealed := MarkRevealed(r.revealed, i), step := Name);
    var next := NextUnrevealed(updated.revealed, i + 1);
    assert forall j :: i < j < |r.revealed| ==> updated.revealed[j] == r.revealed[j];
    if next >= |updated.revealed| then Transition(updated, Discussion)
    else Transition(updated.(currentRevealIndex := next), Reveal)
  }

  /**
   * From a round in the reveal, one advance either moves the cursor to the very next
   * player, keeping the invariant, or, from the last player, ends in discussion with
   * every flag set.
   */
  lemma AdvanceFromReveal(r: Round)
    requires RevealInvariant(r)
    ensures var t := Advance(r);
      && (t.phase == Discussion <==> r.currentRevealIndex == |r.revealed| - 1)
      && (t.phase == Reveal ==>
            RevealInvariant(t.round) && t.round.currentRevealIndex == r.currentRevealIndex + 1)
      && (t.phase == Discussion ==> forall j :: 0 <= j < |t.round.revealed| ==> t.round.revealed[j])
  {
    var t := Advance(r);
    var i := r.currentRevealIndex;
    if i < |r.revealed| - 1 {
      assert !r.revealed[i + 1];
      assert t.phase == Reveal;
    }
  }

  /** `k` presses of "next" from `r`; the button is gone once discussion starts. */
  function Walk(r: Round, k: nat): (t: Transition)
    requires RevealInvariant(r)
    ensures t.phase != Setup
    ensures |t.round.revealed| == |r.revealed|
    decreases k
  {
    if k == 0 then Transition(r, Reveal)
    else
      var t := Advance(r);
      AdvanceFromReveal(r);
      if t.phase == Discussion then t else Walk(t.round, k - 1)
  }

  /**
   * Walking from a round in the reveal: after `k` presses the cursor is `k` places
   * further on while players remain; the press on the last player ends the reveal
   * with every flag set. The word, category and impostor never change.
   */
  lemma {:induction false} WalkAdvancesCursor(r: Round, k: nat)
    requires RevealInvariant(r)
    requires r.currentRevealIndex + k <= |r.revealed|
    ensures var t := Walk(r, k);
      && t.round.secretWord == r.secretWord && t.round.categoryKey == r.categoryKey
      && t.round.imposterIndex == r.imposterIndex && |t.round.revealed| == |r.revealed|
      && (r.currentRevealIndex + k < |r.revealed| ==>
            t.phase == Reveal && RevealInvariant(t.round)
            && t.round.currentRevealIndex == r.currentRevealIndex + k)
      && (r.currentRevealIndex + k == |r.revealed| ==>
            t.phase == Discussion && forall j :: 0 <= j < |t.round.revealed| ==> t.round.revealed[j])
    decreases k
  {
    if k > 0 {
      AdvanceFromReveal(r);
      var t := Advance(r);
      if t.phase == Reveal {
        WalkAdvancesCursor(t.round, k - 1);
      }
    }
  }

  /**
   * From a freshly drawn round of `n` players, the presses visit players 0, 1, ..., n-1
   * in that order (after `k` presses the cursor is on player `k` and exactly players
   * 0..k-1 are revealed), and the `n`-th press enters discussion with every flag set.
   */
  lemma FreshRoundVisitsInOrder(r: Round, k: nat)
    requires |r.revealed| > 0 && r.currentRevealIndex == 0
    requires forall j :: 0 <= j < |r.revealed| ==> !r.revealed[j]
    requires k <= |r.revealed|
    ensures var t := Walk(r, k);
      && (k < |r.revealed| ==>
            t.phase == Reveal && t.round.currentRevealIndex == k
            && forall j :: 0 <= j < |r.revealed| ==> (t.round.revealed[j] <==> j < k))
      && (k == |r.revealed| ==>
            t.phase == Discussion && forall j :: 0 <= j < |r.revealed| ==> t.round.revealed[j])
  {
    WalkAdvancesCursor(r, k);
  }

  /** The card: the impostor notice when the cursor is on the impostor, the secret word otherwise. */
  function CardFor(r: Round): (c: Card)
    ensures c == ImposterNotice <==> r.currentRevealIndex == r.imposterIndex
    ensures c.Word? ==> c.word == r.secretWord
  {
    if r.currentRevealIndex == r.imposterIndex then ImposterNotice else Word(r.secretWord)
  }

  /**
   * Over the whole reveal of a fresh round, the impostor is the only player shown the
   * notice and never sees the word; every other player is shown the secret word.
   */
  lemma OnlyImposterSeesNotice(r: Round, k: nat)
    requires |r.revealed| > 0 && r.currentRevealIndex == 0
    requires forall j :: 0 <= j < |r.revealed| ==> !r.revealed[j]
    requires k < |r.revealed|
    ensures var c := CardFor(Walk(r, k).round);
      && (c == ImposterNotice <==> k == r.imposterIndex)
      && (k != r.imposterIndex ==> c == Word(r.secretWord))
  {
    WalkAdvancesCursor(r, k);
  }
}
