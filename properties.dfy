/*
 * Properties of the counters computed by `Gitgat.Run`, stated over the
 * specification functions that `Run` is proved against.
 */
module GitgatProperties {
  import opened Gitgat

  // ---------------------------------------------------------------------------
  // Line counts

  /** Counting is additive over concatenated diff streams. */
  lemma {:induction false} CountedAppend(a: seq<DiffLine>, b: seq<DiffLine>, dirs: seq<Path>, origin: Origin)
    ensures Counted(a + b, dirs, origin) == Counted(a, dirs, origin) + Counted(b, dirs, origin)
    decreases |b|
  {
    if b == [] {
      assert a + b == a;
    } else {
      var last := |b| - 1;
      assert (a + b)[..|a + b| - 1] == a + b[..last];
      CountedAppend(a, b[..last], dirs, origin);
    }
  }

  /** The count is the number of positions holding a line counted towards `origin`. */
  lemma {:induction false} CountedIsCardinality(lines: seq<DiffLine>, dirs: seq<Path>, origin: Origin)
    ensures Counted(lines, dirs, origin) == |set j | 0 <= j < |lines| && Counts(lines[j], dirs, origin)|
  {
    if lines != [] {
      var last := |lines| - 1;
      var init := lines[..last];
      CountedIsCardinality(init, dirs, origin);
      var before := set j | 0 <= j < |init| && Counts(init[j], dirs, origin);
      var after := set j | 0 <= j < |lines| && Counts(lines[j], dirs, origin);
      if Counts(lines[last], dirs, origin) {
        assert after == before + {last};
      } else {
        assert after == before;
      }
    }
  }

  /** Every line of the diff lies under an excluded directory. */
  predicate AllExcluded(lines: seq<DiffLine>, dirs: seq<Path>)
  {
    forall j :: 0 <= j < |lines| ==> IsExcluded(lines[j].newPath, dirs)
  }

  /** A diff whose every line lies under an excluded directory adds nothing. */
  lemma {:induction false} CountedAllExcluded(lines: seq<DiffLine>, dirs: seq<Path>, origin: Origin)
    requires AllExcluded(lines, dirs)
    ensures Counted(lines, dirs, origin) == 0
  {
    if lines != [] {
      CountedAllExcluded(lines[..|lines| - 1], dirs, origin);
    }
  }

  // ---------------------------------------------------------------------------
  // Exclusion

  /** Exclusion is component-wise: `docs` excludes `docs/x` but not `docs2/x`. */
  lemma ExclusionIsComponentWise()
    ensures IsExcluded(["docs", "x"], [["docs"]])
    ensures !IsExcluded(["docs2", "x"], [["docs"]])
  {
    var dirs: seq<Path> := [["docs"]];
    var inside: Path := ["docs", "x"];
    var sibling: Path := ["docs2", "x"];
    assert inside[..1] == dirs[0];
    assert StartsWith(inside, dirs[0]);
    assert sibling[..1] == ["docs2"];
    assert |sibling[0]| != |dirs[0][0]|;
    assert !StartsWith(sibling, dirs[0]);
  }

  /** An excluded directory with no components (the empty string) excludes every path. */
  lemma EmptyDirExcludesAll(path: Path, dirs: seq<Path>)
    requires [] in dirs
    ensures IsExcluded(path, dirs)
  {
    var k :| 0 <= k < |dirs| && dirs[k] == [];
    assert StartsWith(path, dirs[k]);
  }

  /** Every directory of `dirs` also appears in `dirs'`. */
  predicate Widens(dirs: seq<Path>, dirs': seq<Path>)
  {
    forall k :: 0 <= k < |dirs| ==> dirs[k] in dirs'
  }

  lemma ExcludedWidens(path: Path, dirs: seq<Path>, dirs': seq<Path>)
    requires Widens(dirs, dirs')
    requires IsExcluded(path, dirs)
    ensures IsExcluded(path, dirs')
  {
    var k :| 0 <= k < |dirs| && StartsWith(path, dirs[k]);
    var k' :| 0 <= k' < |dirs'| && dirs'[k'] == dirs[k];
  }

  lemma {:induction false} CountedWidens(lines: seq<DiffLine>, dirs: seq<Path>, dirs': seq<Path>, origin: Origin)
    requires Widens(dirs, dirs')
    ensures Counted(lines, dirs', origin) <= Counted(lines, dirs, origin)
  {
    if lines != [] {
      var last := |lines| - 1;
      CountedWidens(lines[..last], dirs, dirs', origin);
      if IsExcluded(lines[last].newPath, dirs) {
        ExcludedWidens(lines[last].newPath, dirs, dirs');
      }
    }
  }

  /**
   * Excluding more directories never increases the line totals and leaves the
   * commit count unchanged.
   */
  lemma {:induction false} ExclusionMonotone(cs: seq<Commit>, diff: Diff, author: string,
                                             dirs: seq<Path>, dirs': seq<Path>, n: nat)
    requires n <= |cs|
    requires Widens(dirs, dirs')
    ensures Totals(cs, diff, Opts(author, dirs'), n).commits == Totals(cs, diff, Opts(author, dirs), n).commits
    ensures Totals(cs, diff, Opts(author, dirs'), n).insertions <= Totals(cs, diff, Opts(author, dirs), n).insertions
    ensures Totals(cs, diff, Opts(author, dirs'), n).deletions <= Totals(cs, diff, Opts(author, dirs), n).deletions
  {
    if n > 0 {
      ExclusionMonotone(cs, diff, author, dirs, dirs', n - 1);
      var i := n - 1;
      if ByAuthor(cs[i], author) && i + 1 < |cs| {
        CountedWidens(diff(cs[i + 1], cs[i]), dirs, dirs', Plus);
        CountedWidens(diff(cs[i + 1], cs[i]), dirs, dirs', Minus);
      }
    }
  }

  /** Adding one directory to the exclusion list is a widening. */
  lemma AddedDirWidens(dirs: seq<Path>, dir: Path)
    ensures Widens(dirs, dirs + [dir])
  {
    forall k | 0 <= k < |dirs| ensures dirs[k] in dirs + [dir] {
      assert (dirs + [dir])[k] == dirs[k];
    }
  }

  // ---------------------------------------------------------------------------
  // Commit counts and totals

  /** The indices among the first `n` whose commit is kept and has a next entry. */
  function KeptIndices(cs: seq<Commit>, author: string, n: nat): (s: set<nat>)
    requires n <= |cs|
    ensures forall i :: i in s ==> i < n && ByAuthor(cs[i], author)
  {
    set i: nat | i < n && i + 1 < |cs| && ByAuthor(cs[i], author)
  }

  /** The commit counter is the number of kept commits visited, however many lines each has. */
  lemma {:induction false} CommitsAreKeptCommits(cs: seq<Commit>, diff: Diff, opts: Opts, n: nat)
    requires n <= |cs|
    ensures Totals(cs, diff, opts, n).commits == |KeptIndices(cs, opts.author, n)|
  {
    if n > 0 {
      CommitsAreKeptCommits(cs, diff, opts, n - 1);
      var i := n - 1;
      if ByAuthor(cs[i], opts.author) && i + 1 < |cs| {
        assert KeptIndices(cs, opts.author, n) == KeptIndices(cs, opts.author, n - 1) + {i};
      } else {
        assert KeptIndices(cs, opts.author, n) == KeptIndices(cs, opts.author, n - 1);
      }
    }
  }

  /**
   * When `Run` succeeds, its commit counter is the number of commits of the
   * whole walk whose author is the target.
   */
  lemma RunCommitsAreAuthorCommits(cs: seq<Commit>, diff: Diff, opts: Opts)
    requires |cs| == 0 || !ByAuthor(cs[|cs| - 1], opts.author)
    ensures Totals(cs, diff, opts, |cs|).commits == |set i: nat | i < |cs| && ByAuthor(cs[i], opts.author)|
  {
    CommitsAreKeptCommits(cs, diff, opts, |cs|);
    assert KeptIndices(cs, opts.author, |cs|) == set i: nat | i < |cs| && ByAuthor(cs[i], opts.author);
  }

  /** A kept commit is counted once even when every line of its diff is excluded. */
  lemma ExcludedCommitStillCounted(cs: seq<Commit>, diff: Diff, opts: Opts, i: nat)
    requires i + 1 < |cs| && ByAuthor(cs[i], opts.author)
    requires AllExcluded(diff(cs[i + 1], cs[i]), opts.excludedDirs)
    ensures Totals(cs, diff, opts, i + 1) ==
            Stats(Totals(cs, diff, opts, i).commits + 1, Totals(cs, diff, opts, i).insertions, Totals(cs, diff, opts, i).deletions)
  {
    CountedAllExcluded(diff(cs[i + 1], cs[i]), opts.excludedDirs, Plus);
    CountedAllExcluded(diff(cs[i + 1], cs[i]), opts.excludedDirs, Minus);
  }

  /** With no commit by the author, all three counters stay at zero. */
  lemma {:induction false} NoAuthorCommitsIsZero(cs: seq<Commit>, diff: Diff, opts: Opts, n: nat)
    requires n <= |cs|
    requires forall i :: 0 <= i < |cs| ==> !ByAuthor(cs[i], opts.author)
    ensures Totals(cs, diff, opts, n) == Stats(0, 0, 0)
  {
    if n > 0 {
      NoAuthorCommitsIsZero(cs, diff, opts, n - 1);
    }
  }

  /**
   * The lines of every kept commit's diff, in walk order: the stream the
   * callback of `run` sees across the whole loop.
   */
  function KeptLines(cs: seq<Commit>, diff: Diff, author: string, n: nat): seq<DiffLine>
    requires n <= |cs|
  {
    if n == 0 then []
    else
      var i := n - 1;
      if ByAuthor(cs[i], author) && i + 1 < |cs| then KeptLines(cs, diff, author, n - 1) + diff(cs[i + 1], cs[i])
      else KeptLines(cs, diff, author, n - 1)
  }

  /**
   * The per-commit sums equal one count over the single stream of all kept
   * lines, which is how the shared counters of `run` accumulate them.
   */
  lemma {:induction false} TotalsCountKeptLines(cs: seq<Commit>, diff: Diff, opts: Opts, n: nat)
    requires n <= |cs|
    ensures Totals(cs, diff, opts, n).insertions == Counted(KeptLines(cs, diff, opts.author, n), opts.excludedDirs, Plus)
    ensures Totals(cs, diff, opts, n).deletions == Counted(KeptLines(cs, diff, opts.author, n), opts.excludedDirs, Minus)
  {
    if n > 0 {
      TotalsCountKeptLines(cs, diff, opts, n - 1);
      var i := n - 1;
      if ByAuthor(cs[i], opts.author) && i + 1 < |cs| {
        var prefix := KeptLines(cs, diff, opts.author, n - 1);
        CountedAppend(prefix, diff(cs[i + 1], cs[i]), opts.excludedDirs, Plus);
        CountedAppend(prefix, diff(cs[i + 1], cs[i]), opts.excludedDirs, Minus);
      }
    }
  }
}
