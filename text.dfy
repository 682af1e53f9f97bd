/**
 * The handful of Python `str` operations the lesson pipeline relies on:
 * `strip()`, `isspace()`, `sub in s`, `lower()`, `isdigit()`, `int()` and
 * `zfill()`, each with a contract saying what it means rather than how it
 * is computed.
 */
module Text {

  // ---------------------------------------------------------------------
  // Whitespace and strip()
  // ---------------------------------------------------------------------

  /** Python's `str.isspace()` on one character (its Unicode whitespace set). */
  predicate IsSpace(c: char) {
    var k := c as int;
    k == 0x20 || 0x09 <= k <= 0x0D || 0x1C <= k <= 0x1F || k == 0x85 || k == 0xA0
    || k == 0x1680 || 0x2000 <= k <= 0x200A || k == 0x2028 || k == 0x2029
    || k == 0x202F || k == 0x205F || k == 0x3000
  }

  predicate AllSpace(s: string) {
    forall k :: 0 <= k < |s| ==> IsSpace(s[k])
  }

  /**
   * `r` is `s` with its surrounding whitespace removed: a slice of `s` that
   * neither starts nor ends with whitespace, and outside of which `s` holds
   * only whitespace. This is the reference definition `Strip` is proved to meet.
   */
  ghost predicate IsTrimOf(r: string, s: string) {
    && (r == [] || (!IsSpace(r[0]) && !IsSpace(r[|r| - 1])))
    && exists i :: TrimAt(r, s, i)
  }

  /** `r` is the slice of `s` starting at `i`, with only whitespace before and after it. */
  predicate TrimAt(r: string, s: string, i: int) {
    0 <= i <= |s| - |r| && s[i..i + |r|] == r && AllSpace(s[..i]) && AllSpace(s[i + |r|..])
  }

  /** Removes leading whitespace (Python's `lstrip()`). */
  function StripLeft(s: string): string {
    if |s| > 0 && IsSpace(s[0]) then StripLeft(s[1..]) else s
  }

  /** Removes trailing whitespace (Python's `rstrip()`). */
  function StripRight(s: string): string {
    if |s| > 0 && IsSpace(s[|s| - 1]) then StripRight(s[..|s| - 1]) else s
  }

  /** Python's `strip()`. */
  function Strip(s: string): string {
    StripRight(StripLeft(s))
  }

  /** `StripLeft` drops a whitespace-only prefix and stops at the first other character. */
  lemma {:induction false} StripLeftMeaning(s: string)
    ensures var r := StripLeft(s);
      && |r| <= |s| && r == s[|s| - |r|..]
      && AllSpace(s[..|s| - |r|])
      && (r == [] || !IsSpace(r[0]))
  {
    if |s| > 0 && IsSpace(s[0]) {
      StripLeftMeaning(s[1..]);
      var r := StripLeft(s);
      assert s[1..][..|s| - 1 - |r|] == s[1..|s| - |r|];
    }
  }

  /** `StripRight` drops a whitespace-only suffix and stops at the last other character. */
  lemma {:induction false} StripRightMeaning(s: string)
    ensures var r := StripRight(s);
      && r <= s
      && AllSpace(s[|r|..])
      && (r == [] || !IsSpace(r[|r| - 1]))
  {
    if |s| > 0 && IsSpace(s[|s| - 1]) {
      var init := s[..|s| - 1];
      StripRightMeaning(init);
      var r := StripRight(s);
      assert init[|r|..] + [s[|s| - 1]] == s[|r|..];
    }
  }

  /** `Strip` computes the trim of its argument. */
  lemma StripIsTrim(s: string)
    ensures IsTrimOf(Strip(s), s)
  {
    var l := StripLeft(s);
    var r := StripRight(l);
    StripLeftMeaning(s);
    StripRightMeaning(l);
    var i := |s| - |l|;
    assert l == s[i..];
    assert r == l[..|r|];
    assert s[i..i + |r|] == r;
    assert s[i + |r|..] == l[|r|..];
    assert TrimAt(r, s, i);
    if r != [] {
      assert r[0] == l[0];
    }
  }

  /** The trim of a string is unique, so `Strip` is the only function meeting its contract. */
  lemma TrimIsUnique(r1: string, r2: string, s: string)
    requires IsTrimOf(r1, s) && IsTrimOf(r2, s)
    ensures r1 == r2
  {
    var i1 :| TrimAt(r1, s, i1);
    var i2 :| TrimAt(r2, s, i2);
    if r1 == [] && r2 != [] {
      SpaceAt(s, i1, i2);
    } else if r1 != [] && r2 == [] {
      SpaceAt(s, i2, i1);
    } else if r1 != [] {
      SameStart(r1, r2, s, i1, i2);
      SameStart(r2, r1, s, i2, i1);
      SameEnd(r1, r2, s, i1, i2);
      SameEnd(r2, r1, s, i2, i1);
    }
  }

  /** A non-empty trim cannot start after another one does. */
  lemma SameStart(r1: string, r2: string, s: string, i1: int, i2: int)
    requires TrimAt(r1, s, i1) && TrimAt(r2, s, i2)
    requires r1 != [] && !IsSpace(r1[0])
    ensures i2 <= i1
  {
  }

  /** A non-empty trim cannot end before another one does. */
  lemma SameEnd(r1: string, r2: string, s: string, i1: int, i2: int)
    requires TrimAt(r1, s, i1) && TrimAt(r2, s, i2)
    requires r1 != [] && !IsSpace(r1[|r1| - 1])
    ensures i1 + |r1| <= i2 + |r2|
  {
  }

  /** When the trim is empty at `i`, every character of `s` is whitespace, in particular `s[j]`. */
  lemma SpaceAt(s: string, i: int, j: int)
    requires 0 <= i <= |s| && AllSpace(s[..i]) && AllSpace(s[i..])
    requires 0 <= j < |s|
    ensures IsSpace(s[j])
  {
    if j < i {
      assert s[..i][j] == s[j];
    } else {
      assert s[i..][j - i] == s[j];
    }
  }

  /** Stripping twice is stripping once. */
  lemma StripIdempotent(s: string)
    ensures Strip(Strip(s)) == Strip(s)
  {
    var r := Strip(s);
    StripIsTrim(s);
    StripIsTrim(r);
    assert r[0..0 + |r|] == r && r[..0] == [] && r[0 + |r|..] == [];
    assert TrimAt(r, r, 0);
    TrimIsUnique(Strip(r), r, r);
  }

  /** The strip of `s` is empty exactly when `s` is all whitespace. */
  lemma StripEmptyIff(s: string)
    ensures Strip(s) == [] <==> AllSpace(s)
  {
    var r := Strip(s);
    StripIsTrim(s);
    var i :| TrimAt(r, s, i);
    if r == [] {
      forall j | 0 <= j < |s| ensures IsSpace(s[j]) {
        SpaceAt(s, i, j);
      }
    } else {
      assert s[i] == r[0];
    }
  }

  // ---------------------------------------------------------------------
  // Substring test: Python's `sub in s`
  // ---------------------------------------------------------------------

  /** Python's `sub in s`, by scanning the start positions of `s` from the left. */
  predicate Contains(s: string, sub: string)
    decreases |s|
  {
    sub <= s || (|s| > 0 && Contains(s[1..], sub))
  }

  /** `sub` occurs in `s` at position `i`. */
  predicate OccursAt(s: string, sub: string, i: int) {
    0 <= i <= |s| - |sub| && s[i..i + |sub|] == sub
  }

  /** `Contains` holds exactly when `sub` occurs at some position of `s`. */
  lemma {:induction false} ContainsIff(s: string, sub: string)
    ensures Contains(s, sub) <==> exists i :: OccursAt(s, sub, i)
    decreases |s|
  {
    if sub <= s {
      assert OccursAt(s, sub, 0);
    } else if |s| > 0 {
      ContainsIff(s[1..], sub);
      if Contains(s[1..], sub) {
        var i :| OccursAt(s[1..], sub, i);
        assert s[1..][i..i + |sub|] == s[i + 1..i + 1 + |sub|];
        assert OccursAt(s, sub, i + 1);
      }
      if exists i :: OccursAt(s, sub, i) {
        var i :| OccursAt(s, sub, i);
        if i == 0 {
          assert false;
        }
        assert s[1..][i - 1..i - 1 + |sub|] == s[i..i + |sub|];
        assert OccursAt(s[1..], sub, i - 1);
      }
    }
  }

  // ---------------------------------------------------------------------
  // lower()
  // ---------------------------------------------------------------------

  /** Lower-cases an ASCII letter; every other character is left as it is. */
  function LowerChar(c: char): char {
    if 'A' <= c <= 'Z' then (c as int + 32) as char else c
  }

  /** Python's `lower()`, for ASCII letters. */
  function Lower(s: string): string {
    seq(|s|, i requires 0 <= i < |s| => LowerChar(s[i]))
  }

  /** Lower-casing twice is lower-casing once. */
  lemma LowerIdempotent(s: string)
    ensures Lower(Lower(s)) == Lower(s)
  {
    assert forall i :: 0 <= i < |s| ==> Lower(Lower(s))[i] == LowerChar(LowerChar(s[i])) == Lower(s)[i];
  }

  /** Lower-casing commutes with taking a slice. */
  lemma LowerSlice(s: string, i: int, j: int)
    requires 0 <= i <= j <= |s|
    ensures Lower(s)[i..j] == Lower(s[i..j])
  {
    assert forall k :: 0 <= k < j - i ==> Lower(s)[i..j][k] == LowerChar(s[i + k]) == Lower(s[i..j])[k];
  }

  // ---------------------------------------------------------------------
  // isdigit(), int() and zfill()
  // ---------------------------------------------------------------------

  predicate IsDigit(c: char) {
    '0' <= c <= '9'
  }

  predicate AllDigits(s: string) {
    forall i :: 0 <= i < |s| ==> IsDigit(s[i])
  }

  /** Python's `str.isdigit()` for ASCII: false on the empty string. */
  predicate IsDigits(s: string) {
    |s| > 0 && AllDigits(s)
  }

  /** Python's `int(s)` on a string of decimal digits. */
  function DigitsValue(s: string): nat
    requires AllDigits(s)
  {
    if s == [] then 0 else 10 * DigitsValue(s[..|s| - 1]) + (s[|s| - 1] as int - '0' as int)
  }

  function Repeat(c: char, n: nat): (r: string)
    ensures |r| == n
    ensures forall i :: 0 <= i < n ==> r[i] == c
  {
    if n == 0 then [] else [c] + Repeat(c, n - 1)
  }

  /** Leading zeros do not change the value of a digit string. */
  lemma {:induction false} LeadingZerosValue(k: nat, s: string)
    requires AllDigits(s)
    ensures AllDigits(Repeat('0', k) + s)
    ensures DigitsValue(Repeat('0', k) + s) == DigitsValue(s)
    decreases |s|
  {
    var z := Repeat('0', k);
    if s == [] {
      assert z + s == z;
      ZerosValue(k);
    } else {
      var init := s[..|s| - 1];
      LeadingZerosValue(k, init);
      assert (z + s)[..|z + s| - 1] == z + init;
    }
  }

  lemma {:induction false} ZerosValue(k: nat)
    ensures AllDigits(Repeat('0', k)) && DigitsValue(Repeat('0', k)) == 0
  {
    if k > 0 {
      ZerosValue(k - 1);
      var z := Repeat('0', k);
      assert z[..k - 1] == Repeat('0', k - 1);
    }
  }

  /**
   * Python's `s.zfill(width)`: pads `s` on the left with '0' up to `width`
   * characters. Python moves a leading sign in front of the padding; this
   * model does not, and so excludes a leading sign.
   */
  function ZFill(s: string, width: nat): (r: string)
    requires s == [] || (s[0] != '+' && s[0] != '-')
    ensures |r| == if |s| >= width then |s| else width
    ensures |s| <= |r| && r[|r| - |s|..] == s
    ensures forall i :: 0 <= i < |r| - |s| ==> r[i] == '0'
    ensures AllDigits(s) ==> AllDigits(r) && DigitsValue(r) == DigitsValue(s)
  {
    if |s| >= width then s
    else
      var r := Repeat('0', width - |s|) + s;
      if AllDigits(s) then LeadingZerosValue(width - |s|, s); r else r
  }
}
