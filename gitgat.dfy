/*
 * The statistics loop of gitgat's `run`: walk the commits in topological
 * (newest-first) order, keep the ones whose author name is exactly the target,
 * diff each kept commit against the next entry of the walk, and count the added
 * and deleted lines whose file is not under an excluded directory.
 *
 * The repository, the revision walk and libgit2's tree-to-tree diff are
 * abstracted: the walk is a sequence of commits and the diff is a total
 * function from (previous, current) commits to the lines it emits.
 */
module Gitgat {

  datatype Option<T> = None | Some(value: T)

  /** A file path split into its components, as `std::path::Path` iterates it. */
  type Path = seq<string>

  /** The origin character of a diff line: '+', '-', or any other marker. */
  datatype Origin = Plus | Minus | Other

  /** One line reported by the diff, with the new-file path of its delta. */
  datatype DiffLine = DiffLine(newPath: Path, origin: Origin)

  /** A commit of the walk: its object id and its author name, if it has a readable one. */
  datatype Commit = Commit(oid: nat, author: Option<string>)

  /** The tree-to-tree diff, given the previous commit first and the current one second. */
  type Diff = (Commit, Commit) -> seq<DiffLine>

  datatype Opts = Opts(author: string, excludedDirs: seq<Path>)

  /** The three counters printed at the end of a run. */
  datatype Stats = Stats(commits: nat, insertions: nat, deletions: nat)

  /** Indexing `oids[i + 1]` past the end of the walk: the run panics. */
  datatype RunError = MissingParent(index: nat)

  datatype Result = Ok(stats: Stats) | Err(error: RunError)

  // ---------------------------------------------------------------------------
  // Specification

  /** Component-wise prefix test, as `Path::starts_with`. */
  predicate StartsWith(path: Path, dir: Path)
  {
    |dir| <= |path| && path[..|dir|] == dir
  }

  /** A path is excluded when it starts with any of the excluded directories. */
  predicate IsExcluded(path: Path, dirs: seq<Path>)
  {
    exists k :: 0 <= k < |dirs| && StartsWith(path, dirs[k])
  }

  /** A commit is kept only when its author name is present and equal to the target. */
  predicate ByAuthor(c: Commit, author: string)
  {
    c.author == Some(author)
  }

  /** A line is counted towards `origin` when it has that origin and its file is not excluded. */
  predicate Counts(line: DiffLine, dirs: seq<Path>, origin: Origin)
  {
    line.origin == origin && !IsExcluded(line.newPath, dirs)
  }

  /** The number of lines of `lines` counted towards `origin`. */
  function Counted(lines: seq<DiffLine>, dirs: seq<Path>, origin: Origin): (n: nat)
    ensures n <= |lines|
    ensures n == |lines| ==> forall j :: 0 <= j < |lines| ==> Counts(lines[j], dirs, origin)
  {
    if lines == [] then 0
    else
      var last := |lines| - 1;
      Counted(lines[..last], dirs, origin) + (if Counts(lines[last], dirs, origin) then 1 else 0)
  }

  /**
   * The counters after the first `n` indices of the walk have been visited,
   * where a kept commit at index i is diffed against the entry at i + 1. A kept
   * commit with no next entry contributes nothing here; `Run` fails on it.
   */
  function Totals(cs: seq<Commit>, diff: Diff, opts: Opts, n: nat): (t: Stats)
    requires n <= |cs|
    ensures t.commits <= n
  {
    if n == 0 then Stats(0, 0, 0)
    else
      var s := Totals(cs, diff, opts, n - 1);
      var i := n - 1;
      if ByAuthor(cs[i], opts.author) && i + 1 < |cs| then
        var lines := diff(cs[i + 1], cs[i]);
        Stats(s.commits + 1,
              s.insertions + Counted(lines, opts.excludedDirs, Plus),
              s.deletions + Counted(lines, opts.excludedDirs, Minus))
      else s
  }

  // ---------------------------------------------------------------------------
  // The loop of `run`

  /** The `any` over the excluded directories in the per-line callback. */
  method AnyExcludes(path: Path, dirs: seq<Path>) returns (excluded: bool)
    ensures excluded <==> IsExcluded(path, dirs)
  {
    excluded := false;
    var k := 0;
    while k < |dirs| && !excluded
      invariant 0 <= k <= |dirs|
      invariant excluded <==> exists m :: 0 <= m < k && StartsWith(path, dirs[m])
    {
      excluded := StartsWith(path, dirs[k]);
      k := k + 1;
    }
  }

  /** The per-line callback: an excluded line changes nothing, '+' and '-' bump one counter each. */
  method VisitLine(line: DiffLine, dirs: seq<Path>, insertions: nat, deletions: nat)
    returns (insertions': nat, deletions': nat)
    ensures IsExcluded(line.newPath, dirs) ==> insertions' == insertions && deletions' == deletions
    ensures !IsExcluded(line.newPath, dirs) && line.origin == Plus ==>
              insertions' == insertions + 1 && deletions' == deletions
    ensures !IsExcluded(line.newPath, dirs) && line.origin == Minus ==>
              insertions' == insertions && deletions' == deletions + 1
    ensures line.origin == Other ==> insertions' == insertions && deletions' == deletions
  {
    insertions', deletions' := insertions, deletions;
    var excluded := AnyExcludes(line.newPath, dirs);
    if excluded {
      return;
    }
    if line.origin == Plus {
      insertions' := insertions + 1;
    } else if line.origin == Minus {
      deletions' := deletions + 1;
    }
  }

  /** `diff.foreach` with the per-line callback, over the lines of one diff. */
  method TallyDiff(lines: seq<DiffLine>, dirs: seq<Path>, insertions: nat, deletions: nat)
    returns (insertions': nat, deletions': nat)
    ensures insertions' == insertions + Counted(lines, dirs, Plus)
    ensures deletions' == deletions + Counted(lines, dirs, Minus)
  {
    insertions', deletions' := insertions, deletions;
    var j := 0;
    while j < |lines|
      invariant 0 <= j <= |lines|
      invariant insertions' == insertions + Counted(lines[..j], dirs, Plus)
      invariant deletions' == deletions + Counted(lines[..j], dirs, Minus)
    {
      assert lines[..j + 1][..j] == lines[..j];
      insertions', deletions' := VisitLine(lines[j], dirs, insertions', deletions');
      j := j + 1;
    }
    assert lines[..|lines|] == lines;
  }

  /**
   * The loop of `run`. It fails exactly when the last commit of the walk is
   * kept, since that commit has no next entry to diff against; otherwise the
   * counters are the totals over every kept commit.
   */
  method Run(cs: seq<Commit>, diff: Diff, opts: Opts) returns (r: Result)
    ensures r.Err? <==> |cs| > 0 && ByAuthor(cs[|cs| - 1], opts.author)
    ensures r.Err? ==> r.error == MissingParent(|cs| - 1)
    ensures r.Ok? ==> r.stats == Totals(cs, diff, opts, |cs|)
  {
    var commits: nat, insertions: nat, deletions: nat := 0, 0, 0;
    var i := 0;
    while i < |cs|
      invariant 0 <= i <= |cs|
      invariant i == |cs| && i > 0 ==> !ByAuthor(cs[i - 1], opts.author)
      invariant Stats(commits, insertions, deletions) == Totals(cs, diff, opts, i)
    {
      var commit := cs[i];
      if ByAuthor(commit, opts.author) {
        if i + 1 >= |cs| {
          return Err(MissingParent(i));
        }
        var prev := cs[i + 1];
        var lines := diff(prev, commit);
        commits := commits + 1;
        insertions, deletions := TallyDiff(lines, opts.excludedDirs, insertions, deletions);
      }
      i := i + 1;
    }
    return Ok(Stats(commits, insertions, deletions));
  }

  /**
   * The loop as the walk's boundary case is meant to behave: the last commit
   * of the walk has nothing to be diffed against, so it is never visited.
   */
  method RunSkippingRoot(cs: seq<Commit>, diff: Diff, opts: Opts) returns (stats: Stats)
    ensures stats == Totals(cs, diff, opts, |cs|)
    ensures |cs| > 0 ==> stats == Totals(cs, diff, opts, |cs| - 1)
  {
    var commits: nat, insertions: nat, deletions: nat := 0, 0, 0;
    var i := 0;
    while i + 1 < |cs|
      invariant 0 <= i <= |cs|
      invariant |cs| == 0 || i < |cs|
      invariant Stats(commits, insertions, deletions) == Totals(cs, diff, opts, i)
    {
      var commit := cs[i];
      if ByAuthor(commit, opts.author) {
        var lines := diff(cs[i + 1], commit);
        commits := commits + 1;
        insertions, deletions := TallyDiff(lines, opts.excludedDirs, insertions, deletions);
      }
      i := i + 1;
    }
    stats := Stats(commits, insertions, deletions);
  }
}
