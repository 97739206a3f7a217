/**
 * Ingestion (coco_agent/services/git.py, ingest_and_store_repo and ingest_repo_to_jsonl): the
 * records a run emits are split by type, the commits sorted by authored date and stripped of their
 * diffs, and the repo, commit and diff records handed to a store function, one call per type. The
 * JSON lines store writes each batch to a file named by the export naming scheme.
 */
module Ingestion {
  import opened Results
  import opened Text
  import opened Identifiers
  import opened Repository
  import opened CommitWalk
  import opened ExportNames
  import opened Extractor

  const AssertionError := OtherError("AssertionError")
  const IndexError := OtherError("IndexError")
  const KeyError := OtherError("KeyError")

  function UnexpectedType(tag: string): Error {
    ValueError("Unexpected item type: " + tag)
  }

  /** The payload of every commit or repo item is a record of that type. */
  predicate WellTagged(items: seq<Item>) {
    forall k :: 0 <= k < |items| ==> Tagged(items[k])
  }

  predicate Tagged(it: Item) {
    (it.tag == GitCommitType ==> it.payload.CommitPayload?) && (it.tag == GitRepoType ==> it.payload.RepoPayload?)
  }

  predicate Known(it: Item) {
    it.tag == GitCommitType || it.tag == GitRepoType
  }

  // ----- Splitting the items by type -----

  datatype Parts = Parts(commits: seq<CommitRecord>, repos: seq<RepoRecord>)

  /** The split loop over the yielded items: raises at the first item of another type. */
  function Partition(items: seq<Item>): Result<Parts>
    requires WellTagged(items)
  {
    if items == [] then Ok(Parts([], []))
    else
      var front := items[..|items| - 1];
      assert forall k :: 0 <= k < |front| ==> front[k] == items[k];
      var p :- Partition(front);
      var it := items[|items| - 1];
      assert Tagged(it);
      if it.tag == GitCommitType then Ok(Parts(p.commits + [it.payload.commit], p.repos))
      else if it.tag == GitRepoType then Ok(Parts(p.commits, p.repos + [it.payload.repo]))
      else Err(UnexpectedType(it.tag))
  }

  /** The split succeeds exactly when every item is a commit or a repo, keeps every item, and
      otherwise raises for the first item of another type. */
  lemma {:induction false} PartitionOutcome(items: seq<Item>)
    requires WellTagged(items)
    ensures Partition(items).Ok? <==> forall k :: 0 <= k < |items| ==> Known(items[k])
    ensures Partition(items).Ok? ==> |Partition(items).value.commits| + |Partition(items).value.repos| == |items|
    ensures Partition(items).Err? ==>
              exists k :: 0 <= k < |items| && !Known(items[k]) && Partition(items).error == UnexpectedType(items[k].tag)
                          && forall j :: 0 <= j < k ==> Known(items[j])
    decreases |items|
  {
    if items != [] {
      var front := items[..|items| - 1];
      assert forall k :: 0 <= k < |front| ==> front[k] == items[k];
      PartitionOutcome(front);
      if Partition(front).Err? {
        var k :| 0 <= k < |front| && !Known(front[k]) && Partition(front).error == UnexpectedType(front[k].tag)
                 && forall j :: 0 <= j < k ==> Known(front[j]);
        assert !Known(items[k]);
      } else if !Known(items[|items| - 1]) {
        assert forall j :: 0 <= j < |items| - 1 ==> Known(items[j]);
      }
    }
  }

  /** The tagged commit records of a run are collected in order, with no repo. */
  lemma {:induction false} PartitionCommitItems(rs: seq<CommitRecord>)
    ensures WellTagged(CommitItems(rs)) && Partition(CommitItems(rs)) == Ok(Parts(rs, []))
    decreases |rs|
  {
    if rs != [] {
      var front := rs[..|rs| - 1];
      PartitionCommitItems(front);
      var items := CommitItems(rs);
      assert items[..|items| - 1] == CommitItems(front);
      assert front + [rs[|rs| - 1]] == rs;
    }
  }

  /** A run that completes is split into its commit records and its one repo record. */
  lemma PartitionFinishedRun(cfg: Settings, outcome: Result<Repo>, rev: string, fallback: Option<string>, ignoreErrors: bool)
    requires Emitted(cfg, outcome, rev, fallback, ignoreErrors).halt == Finished
    ensures var s := Emitted(cfg, outcome, rev, fallback, ignoreErrors).items;
            && WellTagged(s)
            && Partition(s).Ok?
            && Partition(s).value.commits == RunCommits(cfg, outcome.value, rev, fallback, ignoreErrors)
            && Partition(s).value.repos == [s[|s| - 1].payload.repo]
  {
    var rs := RunCommits(cfg, outcome.value, rev, fallback, ignoreErrors);
    var s := Emitted(cfg, outcome, rev, fallback, ignoreErrors).items;
    FinishedRunItems(cfg, outcome, rev, fallback, ignoreErrors);
    PartitionCommitItems(rs);
    PartitionThenRepo(CommitItems(rs), rs, s[|s| - 1]);
  }

  /** A completed run emits the tagged commit records, then the repo record. */
  lemma FinishedRunItems(cfg: Settings, outcome: Result<Repo>, rev: string, fallback: Option<string>, ignoreErrors: bool)
    requires Emitted(cfg, outcome, rev, fallback, ignoreErrors).halt == Finished
    ensures outcome.Ok?
    ensures var s := Emitted(cfg, outcome, rev, fallback, ignoreErrors).items;
            && |s| >= 1 && s[|s| - 1].tag == GitRepoType && s[|s| - 1].payload.RepoPayload?
            && s == CommitItems(RunCommits(cfg, outcome.value, rev, fallback, ignoreErrors)) + [s[|s| - 1]]
  {
    var repo := outcome.value;
    var rs := RunCommits(cfg, repo, rev, fallback, ignoreErrors);
    var last := Item(GitRepoType, RepoPayload(RepoRecord(RunRepoId(cfg, repo), cfg.sensorId, RunRepoName(cfg, repo).value, RunLinkUrl(cfg, repo))));
    assert Emitted(cfg, outcome, rev, fallback, ignoreErrors).items == CommitItems(rs) + [last];
  }

  /** Commit items followed by one repo item split into those commits and that repo. */
  lemma PartitionThenRepo(items: seq<Item>, rs: seq<CommitRecord>, last: Item)
    requires WellTagged(items) && Partition(items) == Ok(Parts(rs, []))
    requires last.tag == GitRepoType && last.payload.RepoPayload?
    ensures WellTagged(items + [last])
    ensures Partition(items + [last]) == Ok(Parts(rs, [last.payload.repo]))
  {
    var s := items + [last];
    assert WellTagged(s) by {
      forall k | 0 <= k < |s| ensures Tagged(s[k]) {
        if k < |items| {
          assert s[k] == items[k];
        }
      }
    }
    assert s[..|s| - 1] == items && s[|s| - 1] == last;
    var none: seq<RepoRecord> := [];
    assert none + [last.payload.repo] == [last.payload.repo];
    assert Partition(s) == Ok(Parts(rs, none + [last.payload.repo]));
  }

  /** The commit records of a run on an opened repository. */
  function RunCommits(cfg: Settings, repo: Repo, rev: string, fallback: Option<string>, ignoreErrors: bool): seq<CommitRecord> {
    var w := Walked(repo, rev, fallback, true);
    CommitStream(cfg.ids, cfg.sensorId, RunRepoId(cfg, repo), w.items, w.halt, ignoreErrors).items
  }

  /** Every item a run emits is well tagged. */
  lemma EmittedWellTagged(cfg: Settings, outcome: Result<Repo>, rev: string, fallback: Option<string>, ignoreErrors: bool)
    ensures WellTagged(Emitted(cfg, outcome, rev, fallback, ignoreErrors).items)
  {
    var e := Emitted(cfg, outcome, rev, fallback, ignoreErrors);
    if e.halt == Finished {
      PartitionFinishedRun(cfg, outcome, rev, fallback, ignoreErrors);
    } else {
      RunFailureEmitsNoRepo(cfg, outcome, rev, fallback, ignoreErrors);
    }
  }

  /** Once a prefix of the items raises, so does the whole split, with the same error. */
  lemma {:induction false} PartitionRaisesEarly(items: seq<Item>, n: nat)
    requires WellTagged(items) && n <= |items|
    requires WellTagged(items[..n]) && Partition(items[..n]).Err?
    ensures Partition(items) == Partition(items[..n])
    decreases |items|
  {
    if n < |items| {
      var front := items[..|items| - 1];
      assert forall k :: 0 <= k < |front| ==> front[k] == items[k];
      assert front[..n] == items[..n];
      PartitionRaisesEarly(front, n);
    } else {
      assert items[..n] == items;
    }
  }

  /** The split loop. */
  method PartitionItems(items: seq<Item>) returns (r: Result<Parts>)
    requires WellTagged(items)
    ensures r == Partition(items)
  {
    var commits: seq<CommitRecord> := [];
    var repos: seq<RepoRecord> := [];
    var i := 0;
    while i < |items|
      invariant 0 <= i <= |items|
      invariant WellTagged(items[..i]) && Partition(items[..i]) == Ok(Parts(commits, repos))
    {
      var it := items[i];
      assert items[..i + 1][..i] == items[..i];
      assert Tagged(items[..i + 1][i]);
      if it.tag == GitCommitType {
        commits := commits + [it.payload.commit];
      } else if it.tag == GitRepoType {
        repos := repos + [it.payload.repo];
      } else {
        r := Err(UnexpectedType(it.tag));
        assert Partition(items[..i + 1]) == r;
        PartitionRaisesEarly(items, i + 1);
        return;
      }
      i := i + 1;
    }
    assert items[..i] == items;
    r := Ok(Parts(commits, repos));
  }

  // ----- Sorting the commits by authored date -----

  /** Ordered by authored date, oldest first. */
  predicate SortedByDate(s: seq<CommitRecord>) {
    forall i, j :: 0 <= i < j < |s| ==> s[i].authoredDate <= s[j].authoredDate
  }

  /** Inserts `x` after every record whose date is not later than its own. */
  function Insert(x: CommitRecord, s: seq<CommitRecord>): seq<CommitRecord>
    decreases |s|
  {
    if s == [] then [x]
    else if s[|s| - 1].authoredDate <= x.authoredDate then s + [x]
    else Insert(x, s[..|s| - 1]) + [s[|s| - 1]]
  }

  /** `sorted(commits, key=lambda c: c["authored_date"])`, as a stable insertion sort. */
  function SortByDate(s: seq<CommitRecord>): seq<CommitRecord>
    decreases |s|
  {
    if s == [] then [] else Insert(s[|s| - 1], SortByDate(s[..|s| - 1]))
  }

  /** The records carrying date `d`, in order. */
  function WithDate(s: seq<CommitRecord>, d: int): seq<CommitRecord>
    decreases |s|
  {
    if s == [] then []
    else WithDate(s[..|s| - 1], d) + (if s[|s| - 1].authoredDate == d then [s[|s| - 1]] else [])
  }

  lemma {:induction false} InsertMultiset(x: CommitRecord, s: seq<CommitRecord>)
    ensures multiset(Insert(x, s)) == multiset(s) + multiset{x}
    decreases |s|
  {
    if s != [] && s[|s| - 1].authoredDate > x.authoredDate {
      var front := s[..|s| - 1];
      InsertMultiset(x, front);
      assert s == front + [s[|s| - 1]];
    }
  }

  lemma {:induction false} InsertSorted(x: CommitRecord, s: seq<CommitRecord>)
    requires SortedByDate(s)
    ensures SortedByDate(Insert(x, s))
    decreases |s|
  {
    if s != [] && s[|s| - 1].authoredDate > x.authoredDate {
      var front, last := s[..|s| - 1], s[|s| - 1];
      InsertSorted(x, front);
      InsertMultiset(x, front);
      var ins := Insert(x, front);
      forall k | 0 <= k < |ins| ensures ins[k].authoredDate <= last.authoredDate {
        assert ins[k] in multiset(ins);
        if ins[k] != x {
          assert ins[k] in multiset(front);
          var m :| 0 <= m < |front| && front[m] == ins[k];
          assert s[m] == front[m];
        }
      }
    }
  }

  lemma WithDateAppend(s: seq<CommitRecord>, y: CommitRecord, d: int)
    ensures WithDate(s + [y], d) == WithDate(s, d) + (if y.authoredDate == d then [y] else [])
  {
    assert (s + [y])[..|s|] == s;
  }

  /** Inserting adds `x` behind every record of its own date. */
  lemma {:induction false} InsertWithDate(x: CommitRecord, s: seq<CommitRecord>, d: int)
    ensures WithDate(Insert(x, s), d) == WithDate(s, d) + (if x.authoredDate == d then [x] else [])
    decreases |s|
  {
    if s == [] {
      WithDateAppend([], x, d);
    } else if s[|s| - 1].authoredDate <= x.authoredDate {
      WithDateAppend(s, x, d);
    } else {
      var front, last := s[..|s| - 1], s[|s| - 1];
      InsertWithDate(x, front, d);
      WithDateAppend(Insert(x, front), last, d);
      assert s == front + [last];
      WithDateAppend(front, last, d);
    }
  }

  /** The sort orders by date, keeps every record, and keeps records of equal date in their
      original order (Python's sort is stable). */
  lemma SortByDateCorrect(s: seq<CommitRecord>)
    ensures SortedByDate(SortByDate(s))
    ensures multiset(SortByDate(s)) == multiset(s)
    ensures forall d :: WithDate(SortByDate(s), d) == WithDate(s, d)
  {
    SortByDateSorted(s);
    SortByDateMultiset(s);
    forall d ensures WithDate(SortByDate(s), d) == WithDate(s, d) {
      SortByDateStable(s, d);
    }
  }

  lemma {:induction false} SortByDateSorted(s: seq<CommitRecord>)
    ensures SortedByDate(SortByDate(s))
    decreases |s|
  {
    if s != [] {
      SortByDateSorted(s[..|s| - 1]);
      InsertSorted(s[|s| - 1], SortByDate(s[..|s| - 1]));
    }
  }

  lemma {:induction false} SortByDateMultiset(s: seq<CommitRecord>)
    ensures multiset(SortByDate(s)) == multiset(s)
    decreases |s|
  {
    if s != [] {
      var front, last := s[..|s| - 1], s[|s| - 1];
      SortByDateMultiset(front);
      InsertMultiset(last, SortByDate(front));
      assert s == front + [last];
    }
  }

  lemma {:induction false} SortByDateStable(s: seq<CommitRecord>, d: int)
    ensures WithDate(SortByDate(s), d) == WithDate(s, d)
    decreases |s|
  {
    if s != [] {
      var front, last := s[..|s| - 1], s[|s| - 1];
      SortByDateStable(front, d);
      InsertWithDate(last, SortByDate(front), d);
    }
  }

  // ----- Moving the diffs out of the commits -----

  datatype Flat = Flat(commits: seq<CommitRecord>, diffs: seq<DiffRecord>)

  /** The loop that extends the diff list with each commit's diffs and deletes the key. */
  function Flattened(commits: seq<CommitRecord>): Result<Flat>
    decreases |commits|
  {
    if commits == [] then Ok(Flat([], []))
    else
      var f :- Flattened(commits[..|commits| - 1]);
      var c := commits[|commits| - 1];
      if c.diffs.None? then Err(KeyError)
      else Ok(Flat(f.commits + [c.(diffs := None)], f.diffs + c.diffs.value))
  }

  /** Flattening fails exactly when a commit has no diffs key; otherwise every commit is kept, in
      order, without its diffs, and the diff list holds exactly the diffs of the commits. */
  lemma {:induction false} FlattenedCorrect(commits: seq<CommitRecord>)
    ensures Flattened(commits).Ok? <==> forall k :: 0 <= k < |commits| ==> commits[k].diffs.Some?
    ensures Flattened(commits).Err? ==> Flattened(commits).error == KeyError
    ensures Flattened(commits).Ok? ==>
              var f := Flattened(commits).value;
              && |f.commits| == |commits|
              && (forall k :: 0 <= k < |commits| ==> f.commits[k] == commits[k].(diffs := None))
              && (forall d :: d in f.diffs <==> exists k :: 0 <= k < |commits| && d in commits[k].diffs.value)
    decreases |commits|
  {
    if commits != [] {
      var front, c := commits[..|commits| - 1], commits[|commits| - 1];
      FlattenedCorrect(front);
      assert forall k :: 0 <= k < |front| ==> front[k] == commits[k];
      if Flattened(commits).Ok? {
        var f, g := Flattened(commits).value, Flattened(front).value;
        forall d ensures d in f.diffs <==> exists k :: 0 <= k < |commits| && d in commits[k].diffs.value {
          if d in f.diffs && d !in c.diffs.value {
            assert d in g.diffs;
          }
        }
      }
    }
  }

  /** The commits' diff lists concatenated front to back; a commit without a diffs key adds none. */
  function AllDiffs(commits: seq<CommitRecord>): seq<DiffRecord>
    decreases |commits|
  {
    if commits == [] then []
    else (if commits[0].diffs.Some? then commits[0].diffs.value else []) + AllDiffs(commits[1..])
  }

  lemma {:induction false} AllDiffsAppend(a: seq<CommitRecord>, b: seq<CommitRecord>)
    ensures AllDiffs(a + b) == AllDiffs(a) + AllDiffs(b)
    decreases |a|
  {
    if a == [] {
      assert a + b == b;
    } else {
      assert (a + b)[0] == a[0];
      assert (a + b)[1..] == a[1..] + b;
      AllDiffsAppend(a[1..], b);
    }
  }

  /** The flattened diff list is the in-order concatenation of the commits' diff lists, so order
      and multiplicity are kept. */
  lemma {:induction false} FlattenedOrder(commits: seq<CommitRecord>)
    ensures Flattened(commits).Ok? ==> Flattened(commits).value.diffs == AllDiffs(commits)
    decreases |commits|
  {
    if commits != [] {
      var front, c := commits[..|commits| - 1], commits[|commits| - 1];
      FlattenedOrder(front);
      assert commits == front + [c];
      AllDiffsAppend(front, [c]);
      assert [c][1..] == [];
    }
  }

  /** Once a prefix of the commits raises, so does the whole flattening. */
  lemma {:induction false} FlattenedRaisesEarly(commits: seq<CommitRecord>, n: nat)
    requires n <= |commits| && Flattened(commits[..n]).Err?
    ensures Flattened(commits) == Flattened(commits[..n])
    decreases |commits|
  {
    if n < |commits| {
      var front := commits[..|commits| - 1];
      assert front[..n] == commits[..n];
      FlattenedRaisesEarly(front, n);
    } else {
      assert commits[..n] == commits;
    }
  }

  /** The flattening loop. */
  method FlattenDiffs(commits: seq<CommitRecord>) returns (r: Result<Flat>)
    ensures r == Flattened(commits)
  {
    var stripped: seq<CommitRecord> := [];
    var diffs: seq<DiffRecord> := [];
    var i := 0;
    while i < |commits|
      invariant 0 <= i <= |commits|
      invariant Flattened(commits[..i]) == Ok(Flat(stripped, diffs))
    {
      assert commits[..i + 1][..i] == commits[..i];
      var c := commits[i];
      if c.diffs.None? {
        r := Err(KeyError);
        assert Flattened(commits[..i + 1]) == r;
        FlattenedRaisesEarly(commits, i + 1);
        return;
      }
      diffs := diffs + c.diffs.value;
      stripped := stripped + [c.(diffs := None)];
      i := i + 1;
    }
    assert commits[..i] == commits;
    r := Ok(Flat(stripped, diffs));
  }

  // ----- Storing -----

  datatype Batch = Repos(repos: seq<RepoRecord>) | Commits(commits: seq<CommitRecord>) | Diffs(diffs: seq<DiffRecord>)

  /** One call of the store function: a record type, the repo's id and the records. */
  datatype StoreCall = StoreCall(recordType: string, repoTmId: Option<string>, batch: Batch)

  /** What ingest_and_store_repo does with the stream of a run: the calls of the store function. */
  function Store(s: Stream<Item>): Result<seq<StoreCall>>
    requires WellTagged(s.items)
  {
    var parts :- Partition(s.items);
    if s.halt.Raised? then Err(s.halt.error)
    else if |parts.repos| >= 2 then Err(AssertionError)
    else if |parts.repos| == 0 then Err(IndexError)
    else StoredCalls(parts.repos[0], SortByDate(parts.commits))
  }

  /** The three store calls for the one repo record and the sorted commits: repos, commits
      without their diffs, diffs, all under the repo's id. */
  function StoredCalls(repo: RepoRecord, sorted: seq<CommitRecord>): Result<seq<StoreCall>> {
    var flat :- Flattened(sorted);
    Ok([StoreCall(GitRepoType, repo.tmId, Repos([repo])),
        StoreCall(GitCommitType, repo.tmId, Commits(flat.commits)),
        StoreCall(GitCommitDiffType, repo.tmId, Diffs(flat.diffs))])
  }

  /** The extractor ingestion configures: ids from the customer and source, an autogenerated repo
      id and the link URL of the origin remote. */
  function IngestSettings(ids: IdScheme, customerId: string, sourceId: string, forcedRepoName: Option<string>): Settings {
    Settings(ids, customerId, sourceId, ids.sensor(customerId, GitSourceType, sourceId), None, forcedRepoName, true, None, true)
  }

  /** ingest_and_store_repo on the outcome of opening `repo_path`. */
  function Ingested(ids: IdScheme, customerId: Option<string>, sourceId: Option<string>, outcome: Result<Repo>,
                    branch: string, fallbackBranch: Option<string>, forcedRepoName: Option<string>,
                    ignoreErrors: bool): Result<seq<StoreCall>>
  {
    var _ :- InitCheck(None, customerId, sourceId, None, true);
    var cfg := IngestSettings(ids, customerId.value, sourceId.value, forcedRepoName);
    EmittedWellTagged(cfg, outcome, branch, fallbackBranch, ignoreErrors);
    Store(Emitted(cfg, outcome, branch, fallbackBranch, ignoreErrors))
  }

  /** The store part of ingest_and_store_repo. */
  method StoreRun(s: Stream<Item>) returns (r: Result<seq<StoreCall>>)
    requires WellTagged(s.items)
    ensures r == Store(s)
  {
    var parts := PartitionItems(s.items);
    if parts.Err? {
      return Err(parts.error);
    }
    if s.halt.Raised? {
      return Err(s.halt.error);
    }
    var repos := parts.value.repos;
    if |repos| >= 2 {
      return Err(AssertionError);
    }
    if |repos| == 0 {
      return Err(IndexError);
    }
    var repo := repos[0];
    var flat := FlattenDiffs(SortByDate(parts.value.commits));
    if flat.Err? {
      return Err(flat.error);
    }
    r := Ok([StoreCall(GitRepoType, repo.tmId, Repos([repo])),
             StoreCall(GitCommitType, repo.tmId, Commits(flat.value.commits)),
             StoreCall(GitCommitDiffType, repo.tmId, Diffs(flat.value.diffs))]);
  }

  /** ingest_and_store_repo: `outcome` is the outcome of cloning or opening `repoPath`. */
  method IngestAndStoreRepo(ids: IdScheme, customerId: Option<string>, sourceId: Option<string>, repoPath: string,
                            outcome: Result<Repo>, branch: string, fallbackBranch: Option<string>,
                            forcedRepoName: Option<string>, ignoreErrors: bool, useNonNativeRepoDb: bool)
    returns (r: Result<seq<StoreCall>>)
    ensures r == Ingested(ids, customerId, sourceId, outcome, branch, fallbackBranch, forcedRepoName, ignoreErrors)
  {
    var check := InitCheck(None, customerId, sourceId, None, true);
    if check.Err? {
      return Err(check.error);
    }
    var x := new GitRepoExtractor(ids, repoPath, None, customerId, sourceId, None, forcedRepoName, true, None, true,
                                  useNonNativeRepoDb);
    var s := x.Run(outcome, branch, fallbackBranch, ignoreErrors);
    var cfg := IngestSettings(ids, customerId.value, sourceId.value, forcedRepoName);
    assert x.Config() == cfg;
    EmittedWellTagged(cfg, outcome, branch, fallbackBranch, ignoreErrors);
    r := StoreRun(s);
  }

  /** A completed run is stored as three calls, repos, commits and diffs, all under the id of its
      one repo record: the commits sorted by date and without diffs, and every diff of every commit. */
  lemma StoreFinishedRun(cfg: Settings, outcome: Result<Repo>, rev: string, fallback: Option<string>, ignoreErrors: bool)
    requires Emitted(cfg, outcome, rev, fallback, ignoreErrors).halt == Finished
    ensures var e := Emitted(cfg, outcome, rev, fallback, ignoreErrors);
            && |e.items| >= 1 && e.items[|e.items| - 1].payload.RepoPayload? && outcome.Ok? && WellTagged(e.items)
            && var sorted := SortByDate(RunCommits(cfg, outcome.value, rev, fallback, ignoreErrors));
               && Store(e) == StoredCalls(e.items[|e.items| - 1].payload.repo, sorted)
               && StoredCalls(e.items[|e.items| - 1].payload.repo, sorted).Ok?
  {
    RunEndsWithOneRepo(cfg, outcome, rev, fallback, ignoreErrors);
    PartitionFinishedRun(cfg, outcome, rev, fallback, ignoreErrors);
    var repo := outcome.value;
    var w := Walked(repo, rev, fallback, true);
    var rs := RunCommits(cfg, repo, rev, fallback, ignoreErrors);
    RecordsCarryRepoId(cfg.ids, cfg.sensorId, RunRepoId(cfg, repo), w.items, w.halt, ignoreErrors);
    SortedKeepDiffs(rs);
    FlattenedCorrect(SortByDate(rs));
  }

  /** Sorting keeps every commit's diffs present. */
  lemma SortedKeepDiffs(rs: seq<CommitRecord>)
    requires forall k :: 0 <= k < |rs| ==> rs[k].diffs.Some?
    ensures forall k :: 0 <= k < |SortByDate(rs)| ==> SortByDate(rs)[k].diffs.Some?
  {
    SortByDateCorrect(rs);
    var sorted := SortByDate(rs);
    forall k | 0 <= k < |sorted| ensures sorted[k].diffs.Some? {
      assert sorted[k] in multiset(rs);
      var m :| 0 <= m < |rs| && rs[m] == sorted[k];
    }
  }

  /** A run that raises stores nothing and raises its error. */
  lemma StoreFailedRun(cfg: Settings, outcome: Result<Repo>, rev: string, fallback: Option<string>, ignoreErrors: bool)
    requires Emitted(cfg, outcome, rev, fallback, ignoreErrors).halt.Raised?
    ensures var e := Emitted(cfg, outcome, rev, fallback, ignoreErrors);
            WellTagged(e.items) && Store(e) == Err(e.halt.error)
  {
    var e := Emitted(cfg, outcome, rev, fallback, ignoreErrors);
    RunFailureEmitsNoRepo(cfg, outcome, rev, fallback, ignoreErrors);
    EmittedWellTagged(cfg, outcome, rev, fallback, ignoreErrors);
    PartitionOutcome(e.items);
    assert forall k :: 0 <= k < |e.items| ==> Known(e.items[k]);
  }

  // ----- ingest_repo_to_jsonl -----

  /** The fallback branch: `main` for `master` when asked for, no fallback otherwise. */
  function FallbackBranch(branch: string, fallBackFromMasterToMain: bool): (r: Option<string>)
    ensures r.Some? <==> branch == "master" && fallBackFromMasterToMain
    ensures r.Some? ==> r.value == "main"
  {
    if branch == "master" && fallBackFromMasterToMain then Some("main") else None
  }

  const DefaultOutputDir := "./out"

  /** One written JSON lines file. */
  datatype JsonlFile = JsonlFile(path: string, batch: Batch)

  /** The writer's file for one store call; it raises when a part of the file name is missing. */
  function WriteFile(dir: string, customerId: Option<string>, sourceId: Option<string>, call: StoreCall): Result<JsonlFile> {
    var name :- Generate(Some("jsonl"), customerId, sourceId, call.repoTmId, Some(call.recordType));
    Ok(JsonlFile(JoinPath(dir, name), call.batch))
  }

  /** The files written for the store calls, in order, until a call raises. */
  function WrittenFiles(dir: string, customerId: Option<string>, sourceId: Option<string>, calls: seq<StoreCall>): Stream<JsonlFile>
    decreases |calls|
  {
    if calls == [] then Stream([], Finished)
    else
      match WriteFile(dir, customerId, sourceId, calls[0])
      case Err(e) => Stream([], Raised(e))
      case Ok(f) => var rest := WrittenFiles(dir, customerId, sourceId, calls[1..]); Stream([f] + rest.items, rest.halt)
  }

  /** The writer loop over the store calls. */
  method WriteFiles(dir: string, customerId: Option<string>, sourceId: Option<string>, calls: seq<StoreCall>)
    returns (out: Stream<JsonlFile>)
    ensures out == WrittenFiles(dir, customerId, sourceId, calls)
  {
    var files: seq<JsonlFile> := [];
    var i := 0;
    while i < |calls|
      invariant 0 <= i <= |calls|
      invariant WrittenFiles(dir, customerId, sourceId, calls)
                == var rest := WrittenFiles(dir, customerId, sourceId, calls[i..]); Stream(files + rest.items, rest.halt)
    {
      assert calls[i..][1..] == calls[i + 1..];
      var f := WriteFile(dir, customerId, sourceId, calls[i]);
      if f.Err? {
        return Stream(files, Raised(f.error));
      }
      var rest := WrittenFiles(dir, customerId, sourceId, calls[i + 1..]);
      assert files + [f.value] + rest.items == files + ([f.value] + rest.items);
      files := files + [f.value];
      i := i + 1;
    }
    assert calls[i..] == [];
    out := Stream(files, Finished);
  }

  /** ingest_repo_to_jsonl. */
  function JsonlOutput(ids: IdScheme, customerId: Option<string>, sourceId: Option<string>, outcome: Result<Repo>,
                       branch: string, outputDir: Option<string>, fallBackFromMasterToMain: bool,
                       forcedRepoName: Option<string>, ignoreErrors: bool): Stream<JsonlFile>
  {
    var dir := if Truthy(outputDir) then outputDir.value else DefaultOutputDir;
    match Ingested(ids, customerId, sourceId, outcome, branch, FallbackBranch(branch, fallBackFromMasterToMain),
                   forcedRepoName, ignoreErrors)
    case Err(e) => Stream([], Raised(e))
    case Ok(calls) => WrittenFiles(dir, customerId, sourceId, calls)
  }

  /** ingest_repo_to_jsonl; creating the output directory and writing the files are not modelled,
      the files are returned. */
  method IngestRepoToJsonl(ids: IdScheme, customerId: Option<string>, sourceId: Option<string>, repoPath: string,
                           outcome: Result<Repo>, branch: string, outputDir: Option<string>,
                           fallBackFromMasterToMain: bool, forcedRepoName: Option<string>, ignoreErrors: bool,
                           useNonNativeRepoDb: bool)
    returns (out: Stream<JsonlFile>)
    ensures out == JsonlOutput(ids, customerId, sourceId, outcome, branch, outputDir, fallBackFromMasterToMain,
                               forcedRepoName, ignoreErrors)
  {
    var dir := if Truthy(outputDir) then outputDir.value else DefaultOutputDir;
    var calls := IngestAndStoreRepo(ids, customerId, sourceId, repoPath, outcome, branch,
                                    FallbackBranch(branch, fallBackFromMasterToMain), forcedRepoName, ignoreErrors,
                                    useNonNativeRepoDb);
    if calls.Err? {
      return Stream([], Raised(calls.error));
    }
    out := WriteFiles(dir, customerId, sourceId, calls.value);
  }

  /** The name of each file the JSON lines store writes parses back into the customer, the
      source, the repo id, the record type and the `jsonl` suffix. */
  lemma JsonlNameParses(customerId: string, sourceId: string, repoId: string, recordType: string)
    requires recordType == GitRepoType || recordType == GitCommitType || recordType == GitCommitDiffType
    requires Plain(customerId) && Plain(sourceId) && Plain(repoId)
    requires sourceId[0] != '_' && repoId[0] != '_'
    ensures Generate(Some("jsonl"), Some(customerId), Some(sourceId), Some(repoId), Some(recordType)).Ok?
    ensures Parse(Generate(Some("jsonl"), Some(customerId), Some(sourceId), Some(repoId), Some(recordType)).value)
            == Ok(ExportName(customerId, sourceId, repoId, recordType, "jsonl"))
  {
    RecordTypePlain(recordType);
    var suffix := "jsonl";
    assert '.' !in suffix by {
      assert suffix == ['j', 's', 'o', 'n', 'l'];
    }
    PlainWithoutUnderscore(suffix);
    ParseGenerate(ExportName(customerId, sourceId, repoId, recordType, suffix));
  }

  /** The record types hold no `__` and do not start with `_`. */
  lemma RecordTypePlain(t: string)
    requires t == GitRepoType || t == GitCommitType || t == GitCommitDiffType
    ensures Plain(t) && t[0] != '_'
  {
    forall i | 0 <= i < |t| ensures !SeparatorAt(t, i) {
      if i + 1 < |t| { assert t[i] != '_' || t[i + 1] != '_'; }
    }
  }
}
