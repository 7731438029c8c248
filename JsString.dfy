/**
 * String trimming as JavaScript's `String.prototype.trim` does it, which the
 * screen applies to a typed player name before adding it.
 */
module JsString {

  /** The characters ECMAScript treats as WhiteSpace or LineTerminator, which `trim` strips. */
  predicate IsWhitespace(c: char) {
    var x := c as int;
    x == 0x09 || x == 0x0A || x == 0x0B || x == 0x0C || x == 0x0D || x == 0x20
    || x == 0xA0 || x == 0x1680 || (0x2000 <= x <= 0x200A)
    || x == 0x2028 || x == 0x2029 || x == 0x202F || x == 0x205F || x == 0x3000 || x == 0xFEFF
  }

  /** Every character of `s` in `[lo, hi)` is whitespace. */
  predicate WhitespaceBetween(s: string, lo: int, hi: int)
    requires 0 <= lo && hi <= |s|
  {
    forall i :: lo <= i < hi ==> IsWhitespace(s[i])
  }

  /** The first index at or after `from` that does not hold whitespace, or `|s|`. */
  function SkipLeading(s: string, from: nat): (a: nat)
    requires from <= |s|
    ensures from <= a <= |s|
    ensures WhitespaceBetween(s, from, a)
    ensures a < |s| ==> !IsWhitespace(s[a])
    decreases |s| - from
  {
    if from < |s| && IsWhitespace(s[from]) then SkipLeading(s, from + 1) else from
  }

  /** Scanning back from `hi`, no further than `lo`: the end of the text before trailing whitespace. */
  function SkipTrailing(s: string, lo: nat, hi: nat): (b: nat)
    requires lo <= hi <= |s|
    ensures lo <= b <= hi
    ensures WhitespaceBetween(s, b, hi)
    ensures b > lo ==> !IsWhitespace(s[b - 1])
    decreases hi
  {
    if hi > lo && IsWhitespace(s[hi - 1]) then SkipTrailing(s, lo, hi - 1) else hi
  }

  /**
   * `s.trim()`: the result is the slice of `s` left after removing whitespace at both
   * ends. It is empty exactly when `s` is all whitespace, and otherwise neither starts
   * nor ends with whitespace.
   */
  function Trim(s: string): (r: string)
    ensures r == [] <==> WhitespaceBetween(s, 0, |s|)
    ensures r != [] ==> !IsWhitespace(r[0]) && !IsWhitespace(r[|r| - 1])
    ensures var a := SkipLeading(s, 0);
      && a + |r| <= |s| && r == s[a..a + |r|]
      && WhitespaceBetween(s, 0, a) && WhitespaceBetween(s, a + |r|, |s|)
  {
    var a := SkipLeading(s, 0);
    var b := SkipTrailing(s, a, |s|);
    assert a < |s| ==> b > a;
    s[a..b]
  }

  /** Trimming an already trimmed name changes nothing. */
  lemma TrimIdempotent(s: string)
    ensures Trim(Trim(s)) == Trim(s)
  {
    var r := Trim(s);
    if r != [] {
      assert SkipLeading(r, 0) == 0;
      assert SkipTrailing(r, 0, |r|) == |r|;
      assert r[0..|r|] == r;
    }
  }
}
