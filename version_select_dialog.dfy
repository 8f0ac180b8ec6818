/**
 * The version picker (frontend/src/components/VersionSelectDialog.tsx): the
 * version to edit, and the set of versions shown side by side in the tester.
 * The select and the checkboxes identify a version by its number written in
 * decimal, and the handlers look the version up by that string.
 */
module VersionSelectDialog {
  import opened Wrappers
  import opened Seqs
  import opened EvalTypes
  import opened ClientTypes

  // ---------------------------------------------------------------------------
  // Version numbers as strings

  function Digit(d: nat): char
    requires d < 10
  {
    ('0' as int + d) as char
  }

  /** `n.toString()` for a non-negative integer: its decimal digits, without leading zeros. */
  function Decimal(n: nat): (r: string)
    ensures |r| >= 1
    ensures n < 10 <==> |r| == 1
    decreases n
  {
    if n < 10 then [Digit(n)] else Decimal(n / 10) + [Digit(n % 10)]
  }

  /** Distinct numbers are written differently, so a lookup by string is a lookup by number. */
  lemma {:induction false} DecimalInjective(a: nat, b: nat)
    requires Decimal(a) == Decimal(b)
    ensures a == b
    decreases a
  {
    var s := Decimal(a);
    if a >= 10 {
      assert s[|s| - 1] == Digit(a % 10) == Digit(b % 10);
      assert s[..|s| - 1] == Decimal(a / 10) == Decimal(b / 10);
      DecimalInjective(a / 10, b / 10);
    } else {
      assert s[0] == Digit(a) == Digit(b);
    }
  }

  /** The version whose number is written `value`. */
  function WrittenAs(value: string): PromptView -> bool {
    (v: PromptView) => Decimal(v.versionNumber) == value
  }

  /** The version with number `n`. */
  function NumberIs(n: u32): PromptView -> bool {
    (v: PromptView) => v.versionNumber == n
  }

  /** Looking a version up by its number's string finds the first version with that number. */
  lemma FindWritten(versions: seq<PromptView>, n: u32)
    ensures First(versions, WrittenAs(Decimal(n))) == First(versions, NumberIs(n))
  {
    forall j | 0 <= j < |versions|
      ensures WrittenAs(Decimal(n))(versions[j]) == NumberIs(n)(versions[j])
    {
      if Decimal(versions[j].versionNumber) == Decimal(n) {
        DecimalInjective(versions[j].versionNumber, n);
      }
    }
    FindFirstAgree(versions, WrittenAs(Decimal(n)), NumberIs(n));
  }

  // ---------------------------------------------------------------------------
  // The active-version selection

  /** Some version in `vs` has number `n` (the checkbox of `n` is ticked). */
  predicate HasNumber(vs: seq<PromptView>, n: u32) {
    exists i :: 0 <= i < |vs| && vs[i].versionNumber == n
  }

  function NotNumber(n: u32): PromptView -> bool {
    (v: PromptView) => v.versionNumber != n
  }

  /** No number occurs twice. */
  predicate NumbersDistinct(vs: seq<PromptView>) {
    forall i, j :: 0 <= i < j < |vs| ==> vs[i].versionNumber != vs[j].versionNumber
  }

  /** The toggle of one version: removed (by number) when present, appended otherwise. */
  function Toggled(prev: seq<PromptView>, version: PromptView): seq<PromptView> {
    if HasNumber(prev, version.versionNumber) then Filter(prev, NotNumber(version.versionNumber))
    else prev + [version]
  }

  /** `handleActiveVersionChange`: a value naming no version leaves the selection as it is. */
  function Toggle(prev: seq<PromptView>, versions: seq<PromptView>, value: string): (r: seq<PromptView>)
    ensures First(versions, WrittenAs(value)).None? ==> r == prev
  {
    match First(versions, WrittenAs(value))
    case None => prev
    case Some(v) => Toggled(prev, v)
  }

  /** A filter by number drops that number and keeps every other. */
  lemma FilterNumber(prev: seq<PromptView>, n: u32, m: u32)
    ensures HasNumber(Filter(prev, NotNumber(n)), m) <==> m != n && HasNumber(prev, m)
  {
    var f := Filter(prev, NotNumber(n));
    FilterMembers(prev, NotNumber(n));
    if HasNumber(f, m) {
      var i :| 0 <= i < |f| && f[i].versionNumber == m;
      assert f[i] in f;
      var k :| 0 <= k < |prev| && prev[k] == f[i];
    }
    if m != n && HasNumber(prev, m) {
      var i :| 0 <= i < |prev| && prev[i].versionNumber == m;
      assert prev[i] in prev;
      var k :| 0 <= k < |f| && f[k] == prev[i];
    }
  }

  /** Toggling flips the membership of the toggled number and of no other. */
  lemma ToggledMembers(prev: seq<PromptView>, version: PromptView, n: u32)
    ensures HasNumber(Toggled(prev, version), n) <==>
      if n == version.versionNumber then !HasNumber(prev, n) else HasNumber(prev, n)
  {
    var r := Toggled(prev, version);
    if HasNumber(prev, version.versionNumber) {
      FilterNumber(prev, version.versionNumber, n);
    } else {
      if HasNumber(prev, n) {
        var i :| 0 <= i < |prev| && prev[i].versionNumber == n;
        assert r[i] == prev[i];
      }
      if HasNumber(r, n) && n != version.versionNumber {
        var i :| 0 <= i < |r| && r[i].versionNumber == n;
        assert i < |prev| && r[i] == prev[i];
      }
      assert r[|prev|] == version;
    }
  }

  /** Toggling never makes a number occur twice. */
  lemma ToggledDistinct(prev: seq<PromptView>, version: PromptView)
    requires NumbersDistinct(prev)
    ensures NumbersDistinct(Toggled(prev, version))
  {
    var n := version.versionNumber;
    if HasNumber(prev, n) {
      FilterSubsequence(prev, NotNumber(n));
    } else {
      var r := prev + [version];
      forall i, j | 0 <= i < j < |r| ensures r[i].versionNumber != r[j].versionNumber {
        if j == |prev| {
          assert r[i] == prev[i];
        }
      }
    }
  }

  /** A filter keeps the elements in their order: distinct numbers stay distinct. */
  lemma {:induction false} FilterSubsequence(prev: seq<PromptView>, p: PromptView -> bool)
    requires NumbersDistinct(prev)
    ensures NumbersDistinct(Filter(prev, p))
    decreases |prev|
  {
    if prev != [] {
      var n := |prev| - 1;
      var init := prev[..n];
      var last := prev[n];
      FilterSubsequence(init, p);
      FilterMembers(init, p);
      var f := Filter(init, p);
      if p(last) {
        forall i | 0 <= i < |f| ensures f[i].versionNumber != last.versionNumber {
          assert f[i] in f;
          var k :| 0 <= k < |init| && init[k] == f[i];
          assert init[k] == prev[k];
        }
      }
    }
  }

  /** Toggling the same version twice restores which numbers are selected. */
  lemma ToggledTwice(prev: seq<PromptView>, version: PromptView, n: u32)
    ensures HasNumber(Toggled(Toggled(prev, version), version), n) <==> HasNumber(prev, n)
  {
    ToggledMembers(prev, version, n);
    ToggledMembers(Toggled(prev, version), version, n);
  }

  /** Ticking a version that was not selected and unticking it gives back the very same list. */
  lemma ToggledBack(prev: seq<PromptView>, version: PromptView)
    requires !HasNumber(prev, version.versionNumber)
    ensures Toggled(Toggled(prev, version), version) == prev
  {
    var n := version.versionNumber;
    var r := prev + [version];
    assert r[|prev|] == version;
    assert HasNumber(r, n);
    FilterAppend(prev, version, NotNumber(n));
    assert forall j :: 0 <= j < |prev| ==> NotNumber(n)(prev[j]);
    FilterAll(prev, NotNumber(n));
  }

  // ---------------------------------------------------------------------------
  // The dialog's state

  class Dialog {
    var selectedVersion: Option<PromptView>
    var selectedActiveVersions: seq<PromptView>

    /** The state starts from the props passed on first render. */
    constructor(currentVersion: Option<PromptView>, activeVersions: seq<PromptView>)
      ensures selectedVersion == currentVersion
      ensures selectedActiveVersions == activeVersions
    {
      selectedVersion := currentVersion;
      selectedActiveVersions := activeVersions;
    }

    /** `handleVersionChange`: the version written `value`, or none. */
    method HandleVersionChange(versions: seq<PromptView>, value: string)
      modifies this
      ensures selectedVersion == First(versions, WrittenAs(value))
      ensures selectedActiveVersions == old(selectedActiveVersions)
    {
      selectedVersion := First(versions, WrittenAs(value));
    }

    /** `handleActiveVersionChange`. */
    method HandleActiveVersionChange(versions: seq<PromptView>, value: string)
      modifies this
      ensures selectedActiveVersions == Toggle(old(selectedActiveVersions), versions, value)
      ensures selectedVersion == old(selectedVersion)
    {
      selectedActiveVersions := Toggle(selectedActiveVersions, versions, value);
    }

    /**
     * `handleConfirm`: what reaches `onVersionSelect` (only when a version is
     * selected) and what reaches `onSetActiveVersions` (always).
     */
    method HandleConfirm() returns (versionSelect: Option<PromptView>, setActiveVersions: seq<PromptView>)
      ensures versionSelect.Some? <==> selectedVersion.Some?
      ensures versionSelect == selectedVersion && setActiveVersions == selectedActiveVersions
    {
      versionSelect := None;
      if selectedVersion.Some? {
        versionSelect := Some(selectedVersion.value);
      }
      setActiveVersions := selectedActiveVersions;
    }
  }
}
