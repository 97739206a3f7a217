/**
 * The commit walk with a fallback revision (coco_agent/services/git.py, repo_commits_iter): the
 * commits of `rev`, and when git cannot resolve it, the commits of the fallback revision instead,
 * looked up once, with no further fallback and in the default (oldest first) order.
 */
module CommitWalk {
  import opened Results
  import opened Repository

  /** What the generator yields and how it ends. */
  function Walked(repo: Repo, rev: string, fallback: Option<string>, reverse: bool): Stream<Commit>
    decreases if Truthy(fallback) then 1 else 0
  {
    var w := repo.iterCommits(rev, reverse);
    match w.end
    case WalkDone => Stream(w.commits, Finished)
    case WalkFailed(e) => Stream(w.commits, Raised(e))
    case GitCommandError =>
      if Truthy(fallback) then
        var rest := Walked(repo, fallback.value, None, true);
        Stream(w.commits + rest.items, rest.halt)
      else Stream(w.commits, Finished)
  }

  /** repo_commits_iter: yields the walk's commits one by one, then handles how the walk ended. */
  method CommitsIter(repo: Repo, rev: string, fallback: Option<string>, reverse: bool) returns (out: Stream<Commit>)
    ensures out == Walked(repo, rev, fallback, reverse)
    decreases if Truthy(fallback) then 1 else 0
  {
    var w := repo.iterCommits(rev, reverse);
    var yielded: seq<Commit> := [];
    var i := 0;
    while i < |w.commits|
      invariant 0 <= i <= |w.commits|
      invariant yielded == w.commits[..i]
    {
      yielded := yielded + [w.commits[i]];
      i := i + 1;
    }
    assert yielded == w.commits;
    match w.end {
      case WalkDone =>
        out := Stream(yielded, Finished);
      case WalkFailed(e) =>
        out := Stream(yielded, Raised(e));
      case GitCommandError =>
        if Truthy(fallback) {
          var rest := CommitsIter(repo, fallback.value, None, true);
          out := Stream(yielded + rest.items, rest.halt);
        } else {
          out := Stream(yielded, Finished);
        }
    }
  }

  /** The halt a single walk ends with when a failing git command is not retried. */
  function EndOf(e: WalkEnd): Halt {
    if e.WalkFailed? then Raised(e.error) else Finished
  }

  /** A revision git resolves is walked as is, and the fallback is never consulted. */
  lemma WalkResolved(repo: Repo, rev: string, fallback: Option<string>, reverse: bool)
    requires !repo.iterCommits(rev, reverse).end.GitCommandError?
    ensures Walked(repo, rev, fallback, reverse).items == repo.iterCommits(rev, reverse).commits
    ensures Walked(repo, rev, fallback, reverse).halt == EndOf(repo.iterCommits(rev, reverse).end)
  {}

  /** A failed lookup with a fallback yields what came before the failure, then exactly the
      fallback's commits in oldest-first order; a failure of the fallback is not retried. */
  lemma WalkFallsBack(repo: Repo, rev: string, fallback: string, reverse: bool)
    requires repo.iterCommits(rev, reverse).end.GitCommandError? && fallback != ""
    ensures var w, f := repo.iterCommits(rev, reverse), repo.iterCommits(fallback, true);
            && Walked(repo, rev, Some(fallback), reverse).items == w.commits + f.commits
            && Walked(repo, rev, Some(fallback), reverse).halt == EndOf(f.end)
  {}

  /** A failed lookup without a fallback ends quietly. */
  lemma WalkWithoutFallback(repo: Repo, rev: string, fallback: Option<string>, reverse: bool)
    requires repo.iterCommits(rev, reverse).end.GitCommandError? && !Truthy(fallback)
    ensures Walked(repo, rev, fallback, reverse) == Stream(repo.iterCommits(rev, reverse).commits, Finished)
  {}

  /** The walk raises only what a walk of `rev` or of the fallback raised besides a git command
      failure; for well-formed walks it therefore never raises `GitCommandError` itself. */
  lemma WalkRaisesOnlyOtherErrors(repo: Repo, rev: string, fallback: Option<string>, reverse: bool)
    ensures var h := Walked(repo, rev, fallback, reverse).halt;
            h.Raised? ==> repo.iterCommits(rev, reverse).end == WalkFailed(h.error)
                          || (Truthy(fallback) && repo.iterCommits(fallback.value, true).end == WalkFailed(h.error))
    ensures WellFormedEnd(repo.iterCommits(rev, reverse).end)
            && (Truthy(fallback) ==> WellFormedEnd(repo.iterCommits(fallback.value, true).end))
            ==> Walked(repo, rev, fallback, reverse).halt != Raised(GitCommandException)
  {}

  /** The fallback test: `master` is unknown, `main` has one commit, which comes first. */
  lemma MasterFallsBackToMain(repo: Repo, c: Commit)
    requires repo.iterCommits("master", true) == Walk([], GitCommandError)
    requires repo.iterCommits("main", true) == Walk([c], WalkDone)
    ensures Walked(repo, "master", Some("main"), true) == Stream([c], Finished)
  {
    WalkFallsBack(repo, "master", "main", true);
  }
}
