/**
 * String helpers the core relies on: whitespace trimming as Go's
 * strings.TrimSpace and Python's str.strip do it, substring search, Python's
 * str.replace(pattern, "") and ASCII upper-casing.
 */
module Text {
  import opened Wrappers

  /** Go's unicode.IsSpace: the ASCII white space, NEL, NBSP and the Zs separators. */
  predicate IsGoSpace(c: char) {
    c == ' ' || c == '\t' || c == '\n' || c == '\r' || c == '\U{B}' || c == '\U{C}'
    || c == '\U{85}' || c == '\U{A0}' || c == '\U{1680}' || ('\U{2000}' <= c <= '\U{200A}')
    || c == '\U{2028}' || c == '\U{2029}' || c == '\U{202F}' || c == '\U{205F}' || c == '\U{3000}'
  }

  /** Python's str.isspace: Go's set plus the four ASCII separators 0x1C..0x1F. */
  predicate IsPySpace(c: char) {
    IsGoSpace(c) || ('\U{1C}' <= c <= '\U{1F}')
  }

  /** Drops the leading characters that satisfy `sp`. */
  function TrimLeft(s: string, sp: char -> bool): (r: string)
    ensures |r| <= |s| && r == s[|s| - |r|..]
    ensures r == [] || !sp(r[0])
    ensures forall i :: 0 <= i < |s| - |r| ==> sp(s[i])
    decreases |s|
  {
    if s != [] && sp(s[0]) then TrimLeft(s[1..], sp) else s
  }

  /** Drops the trailing characters that satisfy `sp`. */
  function TrimRight(s: string, sp: char -> bool): (r: string)
    ensures |r| <= |s| && r == s[..|r|]
    ensures r == [] || !sp(r[|r| - 1])
    ensures forall i :: |r| <= i < |s| ==> sp(s[i])
    decreases |s|
  {
    if s != [] && sp(s[|s| - 1]) then TrimRight(s[..|s| - 1], sp) else s
  }

  /** Both ends trimmed: no `sp` character is left at either end, and a string without such ends is kept. */
  function Trim(s: string, sp: char -> bool): (r: string)
    ensures |r| <= |s|
    ensures r == [] || (!sp(r[0]) && !sp(r[|r| - 1]))
    ensures (s == [] || (!sp(s[0]) && !sp(s[|s| - 1]))) ==> r == s
  {
    TrimRight(TrimLeft(s, sp), sp)
  }

  /** Neither end of `s` is Go white space. */
  predicate SpaceTrimmed(s: string) {
    s == [] || (!IsGoSpace(s[0]) && !IsGoSpace(s[|s| - 1]))
  }

  /** Go's strings.TrimSpace. */
  function TrimSpace(s: string): (r: string)
    ensures SpaceTrimmed(r)
  {
    Trim(s, IsGoSpace)
  }

  /** Python's str.strip() with no argument. */
  function Strip(s: string): string { Trim(s, IsPySpace) }

  /** Trimming twice is trimming once. */
  lemma TrimIdempotent(s: string, sp: char -> bool)
    ensures Trim(Trim(s, sp), sp) == Trim(s, sp)
  {
  }

  /** `pat` occurs in `s` starting at index `i`. */
  predicate OccursAt(s: string, pat: string, i: int) {
    0 <= i && i + |pat| <= |s| && s[i..i + |pat|] == pat
  }

  /** Occurrences in `s[k..]` are the occurrences in `s` shifted by `k`. */
  lemma OccursShift(s: string, pat: string, k: nat, j: int)
    requires k <= |s| && k <= j
    ensures OccursAt(s, pat, j) <==> OccursAt(s[k..], pat, j - k)
  {
    if j + |pat| <= |s| {
      assert s[j..j + |pat|] == s[k..][j - k..j - k + |pat|];
    }
  }

  /** The first index at which `pat` occurs in `s` (Go's strings.Index, Python's str.find). */
  function IndexOf(s: string, pat: string): (r: Option<nat>)
    ensures r.Some? ==> OccursAt(s, pat, r.value)
    ensures r.Some? ==> forall j :: 0 <= j < r.value ==> !OccursAt(s, pat, j)
    ensures r.None? ==> forall j :: 0 <= j <= |s| ==> !OccursAt(s, pat, j)
    decreases |s|
  {
    if |pat| <= |s| && s[..|pat|] == pat then
      assert s[0..|pat|] == s[..|pat|];
      Some(0)
    else if s == [] then
      None
    else
      assert !OccursAt(s, pat, 0) by {
        if |pat| <= |s| { assert s[0..|pat|] == s[..|pat|]; }
      }
      assert forall j :: 1 <= j <= |s| ==> (OccursAt(s, pat, j) <==> OccursAt(s[1..], pat, j - 1)) by {
        forall j | 1 <= j <= |s| ensures OccursAt(s, pat, j) <==> OccursAt(s[1..], pat, j - 1) {
          OccursShift(s, pat, 1, j);
        }
      }
      match IndexOf(s[1..], pat)
      case Some(k) => Some(k + 1)
      case None => None
  }

  /** Python's `pat in s`. */
  predicate Contains(s: string, pat: string) {
    IndexOf(s, pat).Some?
  }

  /** A text holds `pat` when it starts with it, and when its tail after the first character holds it. */
  lemma ContainsFrom(s: string, pat: string)
    ensures pat <= s ==> Contains(s, pat)
    ensures s != [] && Contains(s[1..], pat) ==> Contains(s, pat)
  {
    if pat <= s {
      assert s[0..|pat|] == pat;
      assert OccursAt(s, pat, 0);
    }
    if s != [] && Contains(s[1..], pat) {
      var k := IndexOf(s[1..], pat).value;
      OccursShift(s, pat, 1, k + 1);
    }
  }

  /**
   * Python's s.replace(pat, ""): one left-to-right pass removing the
   * non-overlapping occurrences of `pat`; text the removal brings together is
   * not scanned again.
   */
  function RemoveAll(s: string, pat: string): (r: string)
    requires pat != []
    ensures |r| <= |s|
    decreases |s|
  {
    if |s| < |pat| then s
    else if pat <= s then RemoveAll(s[|pat|..], pat)
    else [s[0]] + RemoveAll(s[1..], pat)
  }

  /** Removing a pattern that does not occur changes nothing. */
  lemma {:induction false} RemoveAllAbsent(s: string, pat: string)
    requires pat != [] && !Contains(s, pat)
    ensures RemoveAll(s, pat) == s
    decreases |s|
  {
    if |s| >= |pat| {
      assert !OccursAt(s, pat, 0);
      assert s[0..|pat|] == s[..|pat|];
      forall j | 0 <= j <= |s| - 1 ensures !OccursAt(s[1..], pat, j) {
        OccursShift(s, pat, 1, j + 1);
      }
      RemoveAllAbsent(s[1..], pat);
    }
  }

  /** ASCII upper-casing of one character. */
  function UpperChar(c: char): char {
    if 'a' <= c <= 'z' then (c as int - 32) as char else c
  }

  /** Python's str.upper() restricted to ASCII letters. */
  function ToUpper(s: string): (r: string)
    ensures |r| == |s|
    ensures forall i :: 0 <= i < |s| ==> r[i] == UpperChar(s[i])
  {
    seq(|s|, i requires 0 <= i < |s| => UpperChar(s[i]))
  }
}
