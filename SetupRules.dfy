/**
 * The setup screen's rules: which categories are enabled, how the player list is
 * edited, and when a round may start.
 */
module SetupRules {

  /** At least this many players are needed to start a round. */
  const MinPlayers := 3
  /** Every enabled category needs a word list with at least this many words. */
  const MinWords := 4

  /** A category identifier such as "places" or "football_players". */
  type CategoryKey = string

  /** The word dataset (`words.json`): category key to its list of words; read-only. */
  type Words = map<CategoryKey, seq<string>>

  /** The per-category enabled flags (`selectedCategories`). */
  type Selection = map<CategoryKey, bool>

  /** `selectedCategories[k]`: a key with no entry reads as disabled. */
  predicate Enabled(sel: Selection, k: CategoryKey): (b: bool)
    ensures k !in sel ==> !b
  {
    k in sel && sel[k]
  }

  /** The initial selection: every listed key is enabled. */
  function AllEnabled(keys: seq<CategoryKey>): (sel: Selection)
    ensures forall k :: k in keys ==> Enabled(sel, k)
    ensures sel.Keys == set k | k in keys
  {
    map k | k in keys :: true
  }

  /** `toggleCategory(k)`: flips the flag of `k` and keeps every other entry as it was. */
  function Toggled(sel: Selection, k: CategoryKey): (r: Selection)
    ensures Enabled(r, k) == !Enabled(sel, k)
    ensures r.Keys == sel.Keys + {k}
    ensures forall j :: j in sel && j != k ==> r[j] == sel[j]
  {
    sel[k := !Enabled(sel, k)]
  }

  /** Toggling the same listed key twice restores the selection. */
  lemma ToggleTwice(sel: Selection, k: CategoryKey)
    requires k in sel
    ensures Toggled(Toggled(sel, k), k) == sel
  {
    var once := Toggled(sel, k);
    var twice := Toggled(once, k);
    assert twice.Keys == sel.Keys;
    assert forall j :: j in sel ==> twice[j] == sel[j];
  }

  /** `activeCategoryKeys`: the listed keys whose flag is set, in list order. */
  function ActiveKeys(keys: seq<CategoryKey>, sel: Selection): (r: seq<CategoryKey>)
    ensures |r| <= |keys|
  {
    if keys == [] then []
    else (if Enabled(sel, keys[0]) then [keys[0]] else []) + ActiveKeys(keys[1..], sel)
  }

  /** A key is active exactly when it is listed and enabled. */
  lemma {:induction false} ActiveKeysMembers(keys: seq<CategoryKey>, sel: Selection, k: CategoryKey)
    ensures k in ActiveKeys(keys, sel) <==> k in keys && Enabled(sel, k)
  {
    if keys != [] {
      ActiveKeysMembers(keys[1..], sel, k);
      assert keys == [keys[0]] + keys[1..];
    }
  }

  /** Every active key, at whatever position, is a listed key whose flag is set. */
  lemma ActiveKeysListedEnabled(keys: seq<CategoryKey>, sel: Selection)
    ensures forall i :: 0 <= i < |ActiveKeys(keys, sel)| ==>
      ActiveKeys(keys, sel)[i] in keys && Enabled(sel, ActiveKeys(keys, sel)[i])
  {
    var act := ActiveKeys(keys, sel);
    forall i | 0 <= i < |act|
      ensures act[i] in keys && Enabled(sel, act[i])
    {
      ActiveKeysMembers(keys, sel, act[i]);
    }
  }

  /** The positions, in `keys`, of the elements of `act`: increasing, and exactly the enabled ones. */
  ghost predicate IsPositionList(keys: seq<CategoryKey>, sel: Selection, act: seq<CategoryKey>, pos: seq<nat>) {
    && |pos| == |act|
    && (forall i :: 0 <= i < |pos| ==> pos[i] < |keys| && keys[pos[i]] == act[i])
    && (forall i, j :: 0 <= i < j < |pos| ==> pos[i] < pos[j])
    && (forall m :: 0 <= m < |keys| ==> (Enabled(sel, keys[m]) <==> m in pos))
  }

  /**
   * The active keys are exactly the enabled positions of the key list, taken in
   * increasing order: `pos` lists those positions.
   */
  lemma {:induction false} ActiveKeysArePositions(keys: seq<CategoryKey>, sel: Selection)
    returns (pos: seq<nat>)
    ensures |pos| == |ActiveKeys(keys, sel)|
    ensures forall i :: 0 <= i < |pos| ==> pos[i] < |keys| && keys[pos[i]] == ActiveKeys(keys, sel)[i]
    ensures forall i, j :: 0 <= i < j < |pos| ==> pos[i] < pos[j]
    ensures forall m :: 0 <= m < |keys| ==> (Enabled(sel, keys[m]) <==> m in pos)
  {
    pos := PositionList(keys, sel);
  }

  lemma {:induction false} PositionList(keys: seq<CategoryKey>, sel: Selection) returns (pos: seq<nat>)
    ensures IsPositionList(keys, sel, ActiveKeys(keys, sel), pos)
  {
    if keys == [] {
      pos := [];
    } else {
      var rest := PositionList(keys[1..], sel);
      pos := PositionStep(keys, sel, rest);
    }
  }

  /** Adds `1` to every position. */
  function Shift(rest: seq<nat>): (r: seq<nat>)
    ensures |r| == |rest| && forall i :: 0 <= i < |rest| ==> r[i] == rest[i] + 1
  {
    seq(|rest|, i requires 0 <= i < |rest| => rest[i] + 1)
  }

  /** From the positions for the tail of `keys`, the positions for all of it. */
  lemma PositionStep(keys: seq<CategoryKey>, sel: Selection, rest: seq<nat>) returns (pos: seq<nat>)
    requires keys != []
    requires IsPositionList(keys[1..], sel, ActiveKeys(keys[1..], sel), rest)
    ensures IsPositionList(keys, sel, ActiveKeys(keys, sel), pos)
  {
    var head: seq<nat> := if Enabled(sel, keys[0]) then [0] else [];
    var shifted := Shift(rest);
    pos := head + shifted;
    var tail := ActiveKeys(keys[1..], sel);
    var act := ActiveKeys(keys, sel);
    var headKeys := if Enabled(sel, keys[0]) then [keys[0]] else [];
    assert act == headKeys + tail;
    PositionStepElements(keys, rest, head, shifted, pos, headKeys, tail, act);
    PositionStepIncreasing(rest, head, shifted, pos);
    PositionStepComplete(keys, sel, rest, head, shifted, pos);
  }

  lemma PositionStepElements(keys: seq<CategoryKey>, rest: seq<nat>, head: seq<nat>, shifted: seq<nat>,
                             pos: seq<nat>, headKeys: seq<CategoryKey>, tail: seq<CategoryKey>, act: seq<CategoryKey>)
    requires keys != [] && act == headKeys + tail
    requires |rest| == |tail| && forall i :: 0 <= i < |rest| ==> rest[i] < |keys[1..]| && keys[1..][rest[i]] == tail[i]
    requires (head == [] && headKeys == []) || (head == [0] && headKeys == [keys[0]])
    requires |shifted| == |rest| && forall i :: 0 <= i < |rest| ==> shifted[i] == rest[i] + 1
    requires pos == head + shifted
    ensures |pos| == |act|
    ensures forall i :: 0 <= i < |pos| ==> pos[i] < |keys| && keys[pos[i]] == act[i]
  {
    forall i | 0 <= i < |pos|
      ensures pos[i] < |keys| && keys[pos[i]] == act[i]
    {
      if i >= |head| {
        var k := i - |head|;
        assert pos[i] == shifted[k] == rest[k] + 1;
        assert act[i] == tail[k];
        assert keys[pos[i]] == keys[1..][rest[k]];
      } else {
        assert pos[i] == 0 && act[i] == keys[0];
      }
    }
  }

  lemma PositionStepIncreasing(rest: seq<nat>, head: seq<nat>, shifted: seq<nat>, pos: seq<nat>)
    requires forall i, j :: 0 <= i < j < |rest| ==> rest[i] < rest[j]
    requires head == [] || head == [0]
    requires |shifted| == |rest| && forall i :: 0 <= i < |rest| ==> shifted[i] == rest[i] + 1
    requires pos == head + shifted
    ensures forall i, j :: 0 <= i < j < |pos| ==> pos[i] < pos[j]
  {
    forall i, j | 0 <= i < j < |pos|
      ensures pos[i] < pos[j]
    {
      if i >= |head| {
        assert pos[i] == shifted[i - |head|] && pos[j] == shifted[j - |head|];
      } else {
        assert pos[i] == 0 && pos[j] == shifted[j - |head|];
      }
    }
  }

  lemma PositionStepComplete(keys: seq<CategoryKey>, sel: Selection, rest: seq<nat>, head: seq<nat>,
                             shifted: seq<nat>, pos: seq<nat>)
    requires keys != []
    requires forall m :: 0 <= m < |keys[1..]| ==> (Enabled(sel, keys[1..][m]) <==> m in rest)
    requires head == if Enabled(sel, keys[0]) then [0] else []
    requires |shifted| == |rest| && forall i :: 0 <= i < |rest| ==> shifted[i] == rest[i] + 1
    requires pos == head + shifted
    ensures forall m :: 0 <= m < |keys| ==> (Enabled(sel, keys[m]) <==> m in pos)
  {
    forall m | 0 <= m < |keys|
      ensures Enabled(sel, keys[m]) <==> m in pos
    {
      assert m in pos <==> m in head || m in shifted;
      if m > 0 {
        assert keys[m] == keys[1..][m - 1];
        assert m !in head;
        if m - 1 in rest {
          var i :| 0 <= i < |rest| && rest[i] == m - 1;
          assert shifted[i] == m;
        }
      } else {
        assert 0 !in shifted;
      }
    }
  }

  /** When every listed key is enabled, the active keys are the whole list. */
  lemma {:induction false} ActiveKeysAllEnabled(keys: seq<CategoryKey>, sel: Selection)
    requires forall k :: k in keys ==> Enabled(sel, k)
    ensures ActiveKeys(keys, sel) == keys
  {
    if keys != [] {
      assert forall k :: k in keys[1..] ==> k in keys;
      ActiveKeysAllEnabled(keys[1..], sel);
      assert keys == [keys[0]] + keys[1..];
    }
  }

  /**
   * The element-by-element filter that `removePlayer` runs: keeps each element
   * whose index (counted from `base`) differs from `idx`.
   */
  function DropIndex<T>(s: seq<T>, idx: int, base: int): (r: seq<T>)
    ensures |r| == if base <= idx < base + |s| then |s| - 1 else |s|
    decreases |s|
  {
    if s == [] then []
    else (if base == idx then [] else [s[0]]) + DropIndex(s[1..], idx, base + 1)
  }

  lemma {:induction false} DropIndexIsSplice<T>(s: seq<T>, idx: int, base: int)
    ensures DropIndex(s, idx, base)
         == if base <= idx < base + |s| then s[..idx - base] + s[idx - base + 1..] else s
    decreases |s|
  {
    if s != [] {
      var t := s[1..];
      DropIndexIsSplice(t, idx, base + 1);
      assert DropIndex(s, idx, base) == (if base == idx then [] else [s[0]]) + DropIndex(t, idx, base + 1);
      if base == idx {
        assert s[idx - base + 1..] == t;
        assert DropIndex(t, idx, base + 1) == t;
      } else if base < idx < base + |s| {
        var k := idx - base;
        assert DropIndex(t, idx, base + 1) == t[..k - 1] + t[k..];
        assert s[..k] == [s[0]] + t[..k - 1];
        assert s[k + 1..] == t[k..];
      } else {
        assert DropIndex(t, idx, base + 1) == t;
        assert s == [s[0]] + t;
      }
    }
  }

  /**
   * `removePlayer(idx)`: removes exactly position `idx` and keeps the others in order;
   * an index outside the list leaves it unchanged.
   */
  function RemoveAt<T>(s: seq<T>, idx: int): (r: seq<T>)
    ensures 0 <= idx < |s| ==> r == s[..idx] + s[idx + 1..] && |r| == |s| - 1
    ensures !(0 <= idx < |s|) ==> r == s
  {
    DropIndexIsSplice(s, idx, 0);
    DropIndex(s, idx, 0)
  }

  /** The per-key check inside `validateBeforeStart`: a missing list or one under four words. */
  predicate Undersized(words: Words, k: CategoryKey): (u: bool)
    ensures k !in words ==> u
    ensures !u ==> k in words && |words[k]| >= MinWords
  {
    k !in words || |words[k]| < MinWords
  }

  /** The first position at or after `from` whose category fails the word-list check, or `|active|`. */
  function FirstUndersized(active: seq<CategoryKey>, words: Words, from: nat): (i: nat)
    requires from <= |active|
    ensures from <= i <= |active|
    ensures i < |active| ==> Undersized(words, active[i])
    ensures forall j :: from <= j < i ==> !Undersized(words, active[j])
    decreases |active| - from
  {
    if from == |active| || Undersized(words, active[from]) then from
    else FirstUndersized(active, words, from + 1)
  }

  /** Why a round cannot start, in the order the checks run. */
  datatype StartFailure = TooFewPlayers | NoActiveCategory | WordListTooSmall(key: CategoryKey)

  datatype Validation = Passed | Failed(reason: StartFailure)

  /**
   * `validateBeforeStart`: passes exactly when there are at least three players, at
   * least one active category, and every active category has a list of at least four
   * words. Otherwise it reports the first failed check, and for the word lists the
   * first active category, in order, whose list fails.
   */
  function Validate(playerCount: nat, active: seq<CategoryKey>, words: Words): (v: Validation)
    ensures v == Passed <==>
      playerCount >= MinPlayers && |active| > 0 && forall k :: k in active ==> !Undersized(words, k)
    ensures v == Failed(TooFewPlayers) <==> playerCount < MinPlayers
    ensures v == Failed(NoActiveCategory) <==> playerCount >= MinPlayers && |active| == 0
    ensures v.Failed? && v.reason.WordListTooSmall? ==>
      playerCount >= MinPlayers &&
      exists i :: 0 <= i < |active| && active[i] == v.reason.key && Undersized(words, active[i])
        && forall j :: 0 <= j < i ==> !Undersized(words, active[j])
  {
    if playerCount < MinPlayers then Failed(TooFewPlayers)
    else if |active| == 0 then Failed(NoActiveCategory)
    else
      var i := FirstUndersized(active, words, 0);
      if i < |active| then Failed(WordListTooSmall(active[i])) else Passed
  }
}
