# gitgat statistics loop, modelled in Dafny

gitgat prints three statistics for one author in a git repository: the number
of commits they made, and the number of lines they inserted and deleted. Changes
to files under excluded directories are not counted. All of the logic is the
loop inside `run` in `src/gitgat/mod.rs`. The loop walks the commit ids in
topological order, newest first. It keeps a commit only when the author name is
exactly the target. It diffs each kept commit `oids[i]` against the next entry
`oids[i + 1]`, and then counts, line by line, the `'+'` and `'-'` lines whose
new-file path does not start with an excluded directory.

The model has three files:

- `gitgat.dfy` (module `Gitgat`) holds the data model and the specification
  functions. `Counted` counts the lines of one diff, and `Totals` gives the
  counters after the first `n` entries of the walk. It also holds the loop
  itself as methods proved against those functions. `Run` is the outer `for`
  loop. `TallyDiff` is the `diff.foreach` call. `VisitLine` is the per-line
  closure. `AnyExcludes` is the `any` over the excluded directories.
  `StartsWith` is `Path::starts_with` (src/gitgat/mod.rs:54): a whole-component
  prefix test. `ByAuthor` is the author test (src/gitgat/mod.rs:28): the name
  is present and exactly equal to the target.
- `properties.dfy` (module `GitgatProperties`) holds the properties of those
  functions. They cover additivity, the commit count, exclusion monotonicity
  and the all-zero result.
- `scenarios.dfy` (module `GitgatExamples`) holds the boundary case of the walk
  and a worked three-commit history, each also run through `Run`.

The model abstracts the collaborators. The revision walk is a `seq<Commit>` in
walk order. libgit2's tree-to-tree diff is a total function `diff(previous,
current)` that returns the lines it emits. Each line is a new-file path, given
as its components, and an origin (`Plus`, `Minus` or `Other`). The counters are
unbounded naturals.

Notes on the code's behaviour:

- The exclusion test is `Path::starts_with`, which matches whole path
  components. `docs` excludes `docs/x` but not `docs2/x`
  (`ExclusionIsComponentWise`).
- When the last entry of the walk is by the author, the loop indexes past the
  end of the id vector and panics. The model returns `Err(MissingParent(i))`
  for this case; see Findings.
- The loop computes only these three counters.
- A commit is diffed against the next entry of the walk. In a history with
  merges, that entry need not be its parent.
- `run` opens a hard-coded repository path and ignores the path on the
  command line.

## Model

| member | source | states |
|---|---|---|
| `Gitgat.AnyExcludes` | src/gitgat/mod.rs:51-57 | the `any` over excluded directories is true exactly when the new-file path starts, component by component, with one of them |
| `Gitgat.VisitLine` | src/gitgat/mod.rs:49-65 | per line: an excluded line changes neither counter; a kept `'+'` adds exactly 1 to insertions and leaves deletions; a kept `'-'` adds exactly 1 to deletions and leaves insertions; any other origin changes nothing |
| `Gitgat.TallyDiff` | src/gitgat/mod.rs:45-67 | running the callback over one diff adds that diff's count of kept `'+'` lines to insertions and of kept `'-'` lines to deletions |
| `Gitgat.Counted` | src/gitgat/mod.rs:59-63 | a diff contributes at most one count per line, and contributes one for every line only when every line has that origin and is not excluded |
| `Gitgat.Totals` | src/gitgat/mod.rs:26-44 | after `n` entries of the walk the commit counter is at most `n`: at most one bump per visited commit |
| `Gitgat.Run` | src/gitgat/mod.rs:20-68 | the loop fails (the out-of-bounds `oids[i + 1]`) exactly when the last entry of the walk is by the author, and only at that index; otherwise its three counters are the totals over every author commit, each diffed against the next entry |
| `Gitgat.RunSkippingRoot` | src/gitgat/mod.rs:26-31 | the loop that never visits the last entry of the walk never fails and reports the same totals, which ignore the last entry |
| `GitgatProperties.CountedAppend` | src/gitgat/mod.rs:45-67 | counting kept lines is additive over concatenated diff streams |
| `GitgatProperties.CountedIsCardinality` | src/gitgat/mod.rs:59-63 | a diff's count for an origin equals the number of its positions holding a non-excluded line of that origin |
| `GitgatProperties.CountedAllExcluded` | src/gitgat/mod.rs:51-57 | a diff whose lines all lie under excluded directories adds nothing to either counter |
| `GitgatProperties.ExclusionIsComponentWise` | src/gitgat/mod.rs:54 | `docs` excludes `docs/x` but not `docs2/x` |
| `GitgatProperties.EmptyDirExcludesAll` | src/gitgat/mod.rs:51-54 | an excluded directory with no components excludes every path |
| `GitgatProperties.ExcludedWidens` | src/gitgat/mod.rs:51-54 | a path excluded by a list of directories stays excluded by any list that contains them all |
| `GitgatProperties.CountedWidens` | src/gitgat/mod.rs:51-63 | excluding more directories never increases a diff's count for any origin |
| `GitgatProperties.ExclusionMonotone` | src/gitgat/mod.rs:44-68 | excluding more directories leaves the commit count unchanged and never increases insertions or deletions |
| `GitgatProperties.AddedDirWidens` | src/gitgat/mod.rs:10 | appending one directory to the excluded list contains the old list |
| `GitgatProperties.CommitsAreKeptCommits` | src/gitgat/mod.rs:26-44 | the commit counter equals the number of visited author commits that have a next entry, whatever their diffs hold |
| `GitgatProperties.RunCommitsAreAuthorCommits` | src/gitgat/mod.rs:26-44 | when the run succeeds, the commit counter equals the number of commits in the whole walk whose author name is exactly the target |
| `GitgatProperties.ExcludedCommitStillCounted` | src/gitgat/mod.rs:44-57 | an author commit whose every line is excluded still bumps the commit counter by one and leaves the line counters unchanged |
| `GitgatProperties.NoAuthorCommitsIsZero` | src/gitgat/mod.rs:22-30 | if no commit has the target as its author name, which includes an empty walk, all three counters stay zero |
| `GitgatProperties.TotalsCountKeptLines` | src/gitgat/mod.rs:22-67 | the per-commit sums of insertions and deletions equal one count over the single stream of all author commits' diff lines, which is how the shared counters accumulate |
| `GitgatExamples.SingleCommitHistory` | src/gitgat/mod.rs:26-31 | a one-commit history by the author makes the loop fail, while skipping the last entry yields all-zero counters |
| `GitgatExamples.LastEntryContributesNothing` | src/gitgat/mod.rs:26-31 | the last entry of the walk never adds to the totals |
| `GitgatExamples.AliceHistory` | src/gitgat/mod.rs:20-68 | for the history A (root, Bob), B, C (both Alice) walked as C, B, A, with B = +10/-2 in src/x, C = +3/-1 in vendor/y and +1 in src/z, and vendor excluded, the run succeeds with 2 commits, 11 insertions and 2 deletions |
| `GitgatExamples.RunSingleCommit` | src/gitgat/mod.rs:26-31 | `Run` on a one-commit history by the author returns the out-of-bounds error at index 0 |
| `GitgatExamples.RunAliceHistory` | src/gitgat/mod.rs:20-68 | `Run` on the three-commit history above returns 2 commits, 11 insertions and 2 deletions |

## Left out

- Opening the repository (src/gitgat/mod.rs:15-18) is foreign I/O. A failure to open panics; the model starts from the walk.
- `collect_oids` (src/gitgat/mod.rs:75-90) is libgit2's revision walk and topological sort. Its output order is an input sequence.
- `repo.find_commit`, `commit.tree()` and `diff_tree_to_tree` with its blank-line and file-mode options (src/gitgat/mod.rs:27, 31-42) are libgit2 calls. The diff is a function parameter. The model does not include the failures that their `unwrap`s would turn into panics.
- `delta.new_file().path().unwrap()` (src/gitgat/mod.rs:54) panics for a delta with no new-file path when the excluded list is not empty. The model gives every line a path.
- Parsing an excluded directory string into path components (separators, `.` components, a leading `/`) is `std::path` behaviour. Excluded directories and file paths are component sequences in the model.
- Origin characters other than `'+'` and `'-'` (context, end-of-file and header markers) are all one `Other` origin, since the loop treats them alike.
- The progress bars and `oid_progress_style` (src/gitgat/mod.rs:26, 79-98) are display only.
- The three `println!` lines (src/gitgat/mod.rs:69-71) only format the counters that `Run` returns.
- `src/main.rs` is command-line parsing. It builds an `Opts` with a `repo` field that `Opts` does not have, and it calls `.unwrap()` on the unit result of `run`.
- Gitgat.Run: the counters are unbounded naturals. The source's `u32` insertions and deletions, and its `i32` commit count, would overflow beyond their width; that is not modelled.

## Findings

| source | as written | input that shows it | evidently intended | confidence | as-written member | corrected member |
|---|---|---|---|---|---|---|
| src/gitgat/mod.rs:26-31 | the loop visits every index up to `oids.len() - 1` and reads `oids[i + 1]` for each author commit, including the last entry | a walk whose last entry (the root commit) is by the author, e.g. a repository with a single commit by the author | the last entry has nothing to be diffed against and is skipped, so the run reports the totals of the other commits | high; not executed | `Gitgat.Run` | `Gitgat.RunSkippingRoot` |
