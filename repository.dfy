/**
 * The repository as the extractor sees it (GitPython's Repo, Remote and Commit objects), handed
 * in as data, and the two remote helpers (coco_agent/services/git.py, get_repo_name_from_remote
 * and get_repo_url_from_remote).
 */
module Repository {
  import opened Results
  import opened Text
  import opened DiffClassifier

  datatype Remote = Remote(name: string, url: string)

  /** One entry of `commit.stats.files`: a path as git reports it and its line counts. */
  datatype FileStats = FileStats(insertions: int, deletions: int, lines: int)
  datatype StatEntry = StatEntry(path: string, stats: FileStats)

  datatype Actor = Actor(name: string, email: string)

  /** The commit attributes the extractor copies into its record. */
  datatype CommitMeta = CommitMeta(author: Actor, committer: Actor, authoredDate: int,
                                   committedDate: int, message: string, summary: string)

  /** One commit. Every lazily read part is the outcome of reading it: `firstParentDiff` is
      `commit.parents[0].diff(commit)`, `ownDiff` is `commit.diff()` (used for a root commit),
      `stats` is `commit.stats.files.items()`, `meta` the remaining attributes. */
  datatype Commit = Commit(hexsha: string, parents: seq<string>,
                           firstParentDiff: Result<seq<Diff>>, ownDiff: Result<seq<Diff>>,
                           stats: Result<seq<StatEntry>>, meta: Result<CommitMeta>)

  /** How a `git rev-list` walk ended: to completion, with the git command failing (for instance
      an unknown revision), or with another exception. */
  datatype WalkEnd = WalkDone | GitCommandError | WalkFailed(error: Error)

  /** The exception class git raises when a command fails. */
  const GitCommandException := OtherError("GitCommandError")

  /** A git command failure is always reported as `GitCommandError`, never as `WalkFailed`
      carrying that exception class: `WalkFailed` stands for the exceptions the walk's
      `except GitCommandError` does not catch. */
  predicate WellFormedEnd(e: WalkEnd) {
    !(e.WalkFailed? && e.error == GitCommandException)
  }

  /** The commits a walk produced before it ended, in the order it produced them. */
  datatype Walk = Walk(commits: seq<Commit>, end: WalkEnd)

  /** An opened repository. `remotes` is None when there is no remote list at all;
      `iterCommits(rev, reverse)` is `repo.iter_commits(rev, reverse=reverse)`; `check` is the
      outcome of the sanity check on refs and the head commit. */
  datatype Repo = Repo(remotes: Option<seq<Remote>>, iterCommits: (string, bool) -> Walk, check: Result<()>)

  /** `repo.remotes.<name>`: the first remote of that name, when the list is non-empty. */
  function FindRemote(remotes: Option<seq<Remote>>, name: string): (r: Option<Remote>)
    ensures r.Some? ==> remotes.Some? && r.value in remotes.value && r.value.name == name
    ensures r.None? && remotes.Some? ==> forall x :: x in remotes.value ==> x.name != name
    decreases if remotes.Some? then |remotes.value| else 0
  {
    match remotes
    case None => None
    case Some(rs) =>
      if rs == [] then None
      else if rs[0].name == name then Some(rs[0])
      else FindRemote(Some(rs[1..]), name)
  }

  const GitSuffix := ".git"

  /** get_repo_name_from_remote. */
  function RepoNameFromRemote(repo: Repo): (r: Option<string>)
    ensures r.Some? <==> FindRemote(repo.remotes, "origin").Some?
                         && EndsWith(FindRemote(repo.remotes, "origin").value.url, GitSuffix)
  {
    match FindRemote(repo.remotes, "origin")
    case None => None
    case Some(origin) =>
      if !EndsWith(origin.url, GitSuffix) then None
      else Some(SplitLast(SplitFirst(origin.url, GitSuffix), '/'))
  }

  /** get_repo_url_from_remote. */
  function RepoUrlFromRemote(repo: Repo, remote: string): (r: Option<string>)
    ensures r.Some? <==> FindRemote(repo.remotes, remote).Some?
    ensures r.Some? ==> r.value == FindRemote(repo.remotes, remote).value.url
  {
    match FindRemote(repo.remotes, remote)
    case None => None
    case Some(x) => Some(x.url)
  }

  /** The remote name is the last path segment before the first `.git` of the origin URL. */
  lemma RepoNameSegment(repo: Repo)
    requires RepoNameFromRemote(repo).Some?
    ensures var url := FindRemote(repo.remotes, "origin").value.url;
            var name := RepoNameFromRemote(repo).value;
            var head := SplitFirst(url, GitSuffix);
            && '/' !in name
            && EndsWith(head, name) && (|name| == |head| || head[|head| - |name| - 1] == '/')
            && !Contains(head, GitSuffix) && OccursAt(url, GitSuffix, |head|)
  {
    var origin := FindRemote(repo.remotes, "origin");
    var url := origin.value.url;
    assert EndsWith(url, GitSuffix) && RepoNameFromRemote(repo).value == SplitLast(SplitFirst(url, GitSuffix), '/');
    HeadBeforeSuffix(url);
    SegmentOfHead(SplitFirst(url, GitSuffix));
  }

  /** A URL ending with `.git` has one, so the text before its first one is a proper prefix. */
  lemma HeadBeforeSuffix(url: string)
    requires EndsWith(url, GitSuffix)
    ensures var head := SplitFirst(url, GitSuffix);
            !Contains(head, GitSuffix) && OccursAt(url, GitSuffix, |head|)
  {
    var head := SplitFirst(url, GitSuffix);
    assert OccursAt(url, GitSuffix, |url| - 4);
    NoOccurrenceInPrefix(url, GitSuffix, |head|);
  }

  /** The text after the last slash is a slash-free suffix, preceded by a slash if it is not all. */
  lemma SegmentOfHead(head: string)
    ensures var name := SplitLast(head, '/');
            '/' !in name && EndsWith(head, name) && (|name| == |head| || head[|head| - |name| - 1] == '/')
  {}

  /** A prefix that no occurrence starts in holds no occurrence. */
  lemma NoOccurrenceInPrefix(s: string, pat: string, n: nat)
    requires n <= |s| && pat != ""
    requires forall j :: 0 <= j < n ==> !OccursAt(s, pat, j)
    ensures !Contains(s[..n], pat)
  {
    forall j | 0 <= j <= n - |pat| ensures !OccursAt(s[..n], pat, j) {
      if OccursAt(s[..n], pat, j) {
        OccursInSlice(s, pat, 0, n, j);
      }
    }
  }

  /** Without remotes, or without a remote called origin, neither helper finds anything. */
  lemma NoOriginNoName(repo: Repo)
    requires repo.remotes == None || repo.remotes == Some([])
             || (forall x :: x in repo.remotes.value ==> x.name != "origin")
    ensures RepoNameFromRemote(repo) == None && RepoUrlFromRemote(repo, "origin") == None
  {}

  /** An origin URL `front + name + ".git"`, with `front` ending in a slash and no `.git` before
      the last one, is named `name`. */
  lemma RepoNameOfUrl(repo: Repo, front: string, name: string)
    requires FindRemote(repo.remotes, "origin").Some?
    requires FindRemote(repo.remotes, "origin").value.url == front + name + GitSuffix
    requires |front| > 0 && front[|front| - 1] == '/' && '/' !in name
    requires forall j :: 0 <= j < |front + name| ==> !OccursAt(front + name + GitSuffix, GitSuffix, j)
    ensures RepoNameFromRemote(repo) == Some(name)
  {
    var head := front + name;
    var url := head + GitSuffix;
    assert url[|head|..] == GitSuffix;
    FirstOccurrence(url, GitSuffix, 0, |head|);
    assert url[..|head|] == head;
    SplitLastAfter(front, name, '/');
  }

  /** The local path of the source's tests has no repo name: it does not end with `.git`. */
  lemma RepoNameLocalExample(repo: Repo, url: string)
    requires url == "mylocaldir/."
    requires repo.remotes == Some([Remote("origin", url)])
    ensures RepoNameFromRemote(repo) == None
  {
    assert url[|url| - 1] == '.';
  }

  /** The https URL of the source's tests is named after its last segment. */
  lemma RepoNameRemoteExample(repo: Repo, url: string)
    requires url == "https://somewhere/remote.git"
    requires repo.remotes == Some([Remote("origin", url)])
    ensures RepoNameFromRemote(repo) == Some("remote")
  {
    var front, name := "https://somewhere/", "remote";
    assert url == front + name + GitSuffix;
    var t := front + name + GitSuffix;
    var head := front + name;
    assert '.' !in head;
    forall j | 0 <= j < |head| ensures !OccursAt(t, GitSuffix, j) {
      assert t[j] == head[j];
      if j + 4 <= |t| { assert t[j..j + 4][0] == t[j]; }
    }
    RepoNameOfUrl(repo, front, name);
  }

  /** `FindFrom` stops at the first occurrence. */
  lemma {:induction false} FirstOccurrence(s: string, pat: string, i: nat, j: nat)
    requires i <= j <= |s| && OccursAt(s, pat, j)
    requires forall k :: i <= k < j ==> !OccursAt(s, pat, k)
    ensures FindFrom(s, pat, i) == Some(j)
    decreases j - i
  {
    if i < j {
      FirstOccurrence(s, pat, i + 1, j);
    }
  }

  /** Splitting at the last `c` of `front + back` gives `back` when `front` ends with `c`. */
  lemma {:induction false} SplitLastAfter(front: string, back: string, c: char)
    requires |front| > 0 && front[|front| - 1] == c && c !in back
    ensures SplitLast(front + back, c) == back
    decreases |back|
  {
    if back == [] {
      assert front + back == front;
    } else {
      var s := front + back;
      assert s[..|s| - 1] == front + back[..|back| - 1];
      SplitLastAfter(front, back[..|back| - 1], c);
      assert back == back[..|back| - 1] + [back[|back| - 1]];
    }
  }
}
