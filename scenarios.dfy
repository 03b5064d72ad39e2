/*
 * The boundary case of the walk and a worked history.
 */
module GitgatExamples {
  import opened Gitgat
  import opened GitgatProperties

  /**
   * A history of a single commit by the target author makes `Run` fail, while
   * the loop that never visits the last entry reports zero for every counter.
   */
  lemma {:induction false} SingleCommitHistory(c: Commit, diff: Diff, opts: Opts)
    requires ByAuthor(c, opts.author)
    ensures |[c]| > 0 && ByAuthor([c][|[c]| - 1], opts.author)
    ensures Totals([c], diff, opts, 1) == Stats(0, 0, 0)
  {
    assert Totals([c], diff, opts, 0) == Stats(0, 0, 0);
  }

  /** The last entry of the walk never contributes to the totals. */
  lemma LastEntryContributesNothing(cs: seq<Commit>, diff: Diff, opts: Opts)
    requires |cs| > 0
    ensures Totals(cs, diff, opts, |cs|) == Totals(cs, diff, opts, |cs| - 1)
  {
  }

  function Repeat(line: DiffLine, k: nat): (r: seq<DiffLine>)
    ensures |r| == k
    ensures forall j :: 0 <= j < k ==> r[j] == line
  {
    if k == 0 then [] else Repeat(line, k - 1) + [line]
  }

  lemma {:induction false} CountedRepeat(line: DiffLine, k: nat, dirs: seq<Path>, origin: Origin)
    ensures Counted(Repeat(line, k), dirs, origin) == if Counts(line, dirs, origin) then k else 0
  {
    if k > 0 {
      CountedRepeat(line, k - 1, dirs, origin);
      assert Repeat(line, k)[..k - 1] == Repeat(line, k - 1);
    }
  }

  const A := Commit(1, Some("Bob"))
  const B := Commit(2, Some("Alice"))
  const C := Commit(3, Some("Alice"))
  const Src: Path := ["src", "x"]
  const Vendor: Path := ["vendor", "y"]
  const SrcZ: Path := ["src", "z"]

  function BLines(): seq<DiffLine>
  {
    Repeat(DiffLine(Src, Plus), 10) + Repeat(DiffLine(Src, Minus), 2)
  }

  function CLines(): seq<DiffLine>
  {
    Repeat(DiffLine(Vendor, Plus), 3) + Repeat(DiffLine(Vendor, Minus), 1) + [DiffLine(SrcZ, Plus)]
  }

  /** The diff of the example history, by current commit. */
  function AliceDiff(prev: Commit, cur: Commit): seq<DiffLine>
  {
    if cur == B then BLines() else if cur == C then CLines() else []
  }

  const Excluded: seq<Path> := [["vendor"]]

  /** Only vendor/y is excluded by the example's single directory. */
  lemma ExampleExclusions()
    ensures !IsExcluded(Src, Excluded) && !IsExcluded(SrcZ, Excluded) && IsExcluded(Vendor, Excluded)
  {
    assert Src[..1] == ["src"] && SrcZ[..1] == ["src"];
    assert !StartsWith(Src, Excluded[0]) && !StartsWith(SrcZ, Excluded[0]);
    assert Vendor[..1] == Excluded[0];
  }

  lemma BCounts(origin: Origin)
    ensures Counted(BLines(), Excluded, origin) == match origin case Plus => 10 case Minus => 2 case Other => 0
  {
    ExampleExclusions();
    CountedAppend(Repeat(DiffLine(Src, Plus), 10), Repeat(DiffLine(Src, Minus), 2), Excluded, origin);
    CountedRepeat(DiffLine(Src, Plus), 10, Excluded, origin);
    CountedRepeat(DiffLine(Src, Minus), 2, Excluded, origin);
  }

  lemma CCounts(origin: Origin)
    ensures Counted(CLines(), Excluded, origin) == if origin == Plus then 1 else 0
  {
    var v3 := Repeat(DiffLine(Vendor, Plus), 3);
    var v1 := Repeat(DiffLine(Vendor, Minus), 1);
    var z := [DiffLine(SrcZ, Plus)];
    assert Counted(v3, Excluded, origin) == 0 by {
      ExampleExclusions();
      CountedRepeat(DiffLine(Vendor, Plus), 3, Excluded, origin);
    }
    assert Counted(v1, Excluded, origin) == 0 by {
      ExampleExclusions();
      CountedRepeat(DiffLine(Vendor, Minus), 1, Excluded, origin);
    }
    assert Counted(z, Excluded, origin) == if origin == Plus then 1 else 0 by {
      ExampleExclusions();
      assert z[..0] == [];
    }
    CountedAppend(v3, v1, Excluded, origin);
    CountedAppend(v3 + v1, z, Excluded, origin);
  }

  /**
   * History A (root) -> B -> C, walked as [C, B, A]. Alice wrote B and C. B adds
   * ten and deletes two lines of src/x; C adds three and deletes one line of
   * vendor/y and adds one line of src/z. With vendor excluded, the walk's last
   * entry is not Alice's, so `Run` succeeds, and it reports two commits, eleven
   * insertions and two deletions.
   */
  lemma AliceHistory()
    ensures !ByAuthor([C, B, A][2], "Alice")
    ensures Totals([C, B, A], AliceDiff, Opts("Alice", Excluded), 3) == Stats(2, 11, 2)
  {
    var cs := [C, B, A];
    var opts := Opts("Alice", Excluded);
    BCounts(Plus);
    BCounts(Minus);
    CCounts(Plus);
    CCounts(Minus);
    assert AliceDiff(cs[1], cs[0]) == CLines();
    assert AliceDiff(cs[2], cs[1]) == BLines();
    assert Totals(cs, AliceDiff, opts, 1) == Stats(1, 1, 0);
    assert Totals(cs, AliceDiff, opts, 2) == Stats(2, 11, 2);
  }

  /** `Run` on a one-commit history by the author fails at the only index. */
  method RunSingleCommit(c: Commit, diff: Diff, opts: Opts) returns (r: Result)
    requires ByAuthor(c, opts.author)
    ensures r == Err(MissingParent(0))
  {
    r := Run([c], diff, opts);
  }

  /** `Run` on the example history succeeds with 2 commits, 11 insertions and 2 deletions. */
  method RunAliceHistory() returns (r: Result)
    ensures r == Ok(Stats(2, 11, 2))
  {
    r := Run([C, B, A], AliceDiff, Opts("Alice", Excluded));
    AliceHistory();
  }
}
