/** File names the downloader gives to saved workflows, and the glob pattern
    `workflow_*.json` with which the merger finds them again. */
module Naming {
  import opened Text

  const Prefix := "workflow_"
  const Extension := ".json"

  /** `workflow_<index>.json`, the name a download is saved under. */
  function PrimaryName(index: nat): string
  {
    Prefix + Decimal(index) + Extension
  }

  /** `workflow_<index>_<timestamp>.json`, the name used when the primary one is taken. */
  function StampedName(index: nat, timestamp: nat): string
  {
    Prefix + Decimal(index) + "_" + Decimal(timestamp) + Extension
  }

  /** The new name of the downloaded file: the primary name unless a file of
      that name exists, the timestamped one otherwise. The timestamped name is
      not checked against `existing`. */
  function RenameTarget(index: nat, existing: set<string>, timestamp: nat): string
  {
    if PrimaryName(index) in existing then StampedName(index, timestamp) else PrimaryName(index)
  }

  /** `fnmatch` of a name against `workflow_*.json`: the star matches any
      (possibly empty) middle, so prefix and suffix must not overlap. */
  predicate MatchesGlob(name: string)
  {
    |Prefix| + |Extension| <= |name| && StartsWith(name, Prefix) && EndsWith(name, Extension)
  }

  /** Two downloads with different indices get different primary names. */
  lemma PrimaryNameInjective(i: nat, j: nat)
    ensures PrimaryName(i) == PrimaryName(j) ==> i == j
  {
    if PrimaryName(i) == PrimaryName(j) {
      var di, dj := Decimal(i), Decimal(j);
      assert |di| == |dj|;
      assert di == PrimaryName(i)[|Prefix|..|Prefix| + |di|];
      assert dj == PrimaryName(j)[|Prefix|..|Prefix| + |dj|];
      DecimalInjective(i, j);
    }
  }

  /** A timestamped name never coincides with any primary name: after the
      prefix's digits the former has `_` where the latter has a digit. */
  lemma StampedNeverPrimary(i: nat, t: nat, j: nat)
    ensures StampedName(i, t) != PrimaryName(j)
  {
    var s, p := StampedName(i, t), PrimaryName(j);
    var di, dj := Decimal(i), Decimal(j);
    var k := |Prefix| + |di|;
    assert s[k] == '_';
  }

  /** The rename keeps the primary name exactly when no file of that name exists. */
  lemma RenameTargetPrimaryIffFree(index: nat, existing: set<string>, timestamp: nat)
    ensures RenameTarget(index, existing, timestamp) == PrimaryName(index)
        <==> PrimaryName(index) !in existing
  {
  }

  /** Every rename target is picked up by the merger's glob. */
  lemma RenameTargetMatchesGlob(index: nat, existing: set<string>, timestamp: nat)
    ensures MatchesGlob(RenameTarget(index, existing, timestamp))
  {
  }

  /** The timestamped fallback can name a file that already exists: the name
      is not re-checked, so the rename is not guaranteed to be collision-free. */
  lemma StampedTargetMayExist()
    ensures var existing := {PrimaryName(1), StampedName(1, 7)};
            RenameTarget(1, existing, 7) in existing
  {
  }
}
