/**
 * The extraction engine (coco_agent/services/git.py, GitRepoExtractor): per-commit diff records
 * joined from the commit's statistics and its first-parent diff, commit records with an
 * ignore-errors policy, and the stream of tagged records a run emits.
 */
module Extractor {
  import opened Results
  import opened Identifiers
  import opened DiffClassifier
  import opened RenamePaths
  import opened Repository
  import opened CommitWalk

  const GitSourceType := "git"
  const GitCommitType := "git_commits"
  const GitCommitDiffType := "git_commit_diffs"
  const GitRepoType := "git_repos"

  const NoSensorOrIds := ValueError("Must either provide a sensor, or both customer and source ids")
  const NoRepoId := ValueError("No repo id given or auto-gen requested")
  const NoRepoName := ValueError("Could not infer repo name from remote")

  /** A sensor object: the ids it carries. */
  datatype Sensor = Sensor(customerId: string, sourceId: string, tmId: string)

  /** The per-path statistics dict after the extractor has added its keys. */
  datatype DiffRecord = DiffRecord(
    stats: FileStats, tmId: string, sensorId: string, repoId: Option<string>, commitId: string,
    aPath: Option<string>, bPath: Option<string>, aObjectId: string, bObjectId: string,
    sizeDelta: Option<int>, changeType: Option<string>)

  /** A commit record; `diffs` is None once the key has been deleted. */
  datatype CommitRecord = CommitRecord(
    tmId: string, sensorId: string, repoId: Option<string>, diffs: Option<seq<DiffRecord>>,
    authorName: string, authorEmail: string, committerName: string, committerEmail: string,
    parents: seq<string>, hexsha: string, authoredDate: int, committedDate: int,
    message: string, summary: string)

  datatype RepoRecord = RepoRecord(tmId: Option<string>, sensorId: string, name: string, url: Option<string>)

  datatype Payload = CommitPayload(commit: CommitRecord) | RepoPayload(repo: RepoRecord)

  /** One emitted 2-tuple: a record type and a record. */
  datatype Item = Item(tag: string, payload: Payload)

  /** The items of `s` followed by `t`, ending as `t` ends. */
  function Prepend<T>(items: seq<T>, t: Stream<T>): Stream<T> {
    Stream(items + t.items, t.halt)
  }

  // ----- Construction -----

  /** The validation of `__init__`, in the order the source checks. */
  function InitCheck(sensor: Option<Sensor>, customerId: Option<string>, sourceId: Option<string>,
                     repoTmId: Option<string>, autogenerateRepoId: bool): (r: Result<()>)
    ensures r == Err(NoSensorOrIds) <==> sensor.None? && !(Truthy(customerId) && Truthy(sourceId))
    ensures r == Err(NoRepoId) <==> (sensor.Some? || (Truthy(customerId) && Truthy(sourceId)))
                                    && !Truthy(repoTmId) && !autogenerateRepoId
    ensures r.Ok? <==> (sensor.Some? || (Truthy(customerId) && Truthy(sourceId)))
                       && (Truthy(repoTmId) || autogenerateRepoId)
  {
    if sensor.None? && (!Truthy(customerId) || !Truthy(sourceId)) then Err(NoSensorOrIds)
    else if !Truthy(repoTmId) && !autogenerateRepoId then Err(NoRepoId)
    else Ok(())
  }

  // ----- load_commit_diffs -----

  /** `{diff.a_path: diff for diff in diffs}`: every old path maps to the last diff that has it. */
  function DiffsByPath(diffs: seq<Diff>): map<Option<string>, Diff> {
    if diffs == [] then map[]
    else DiffsByPath(diffs[..|diffs| - 1])[diffs[|diffs| - 1].aPath := diffs[|diffs| - 1]]
  }

  /** The map's keys are the old paths of the diffs, each mapped to a diff with that old path. */
  lemma {:induction false} DiffsByPathKeys(diffs: seq<Diff>)
    ensures var m := DiffsByPath(diffs);
            && (forall p :: p in m <==> exists i :: 0 <= i < |diffs| && diffs[i].aPath == p)
            && (forall p :: p in m ==> m[p].aPath == p && m[p] in diffs)
    decreases |diffs|
  {
    if diffs != [] {
      var front, last := diffs[..|diffs| - 1], diffs[|diffs| - 1];
      DiffsByPathKeys(front);
      var m := DiffsByPath(diffs);
      assert m == DiffsByPath(front)[last.aPath := last];
      assert forall i :: 0 <= i < |front| ==> front[i] == diffs[i];
      forall p | exists i :: 0 <= i < |diffs| && diffs[i].aPath == p
        ensures p in m
      {
        var i :| 0 <= i < |diffs| && diffs[i].aPath == p;
        if i < |front| {
          assert front[i].aPath == p;
          assert p in DiffsByPath(front);
        }
      }
      forall p | p in m
        ensures exists i :: 0 <= i < |diffs| && diffs[i].aPath == p
      {
        if p == last.aPath {
          assert diffs[|diffs| - 1].aPath == p;
        } else {
          assert p in DiffsByPath(front);
          var i :| 0 <= i < |front| && front[i].aPath == p;
          assert diffs[i].aPath == p;
        }
      }
      assert diffs == front + [last];
      forall p | p in m
        ensures m[p].aPath == p && m[p] in diffs
      {
        if p != last.aPath {
          assert m[p] == DiffsByPath(front)[p];
          assert m[p] in front;
        }
      }
    }
  }

  /** The map keeps the last of the diffs with a given old path. */
  lemma {:induction false} DiffsByPathLastWins(diffs: seq<Diff>, i: nat)
    requires i < |diffs|
    requires forall j :: i < j < |diffs| ==> diffs[j].aPath != diffs[i].aPath
    ensures diffs[i].aPath in DiffsByPath(diffs) && DiffsByPath(diffs)[diffs[i].aPath] == diffs[i]
    decreases |diffs|
  {
    if i < |diffs| - 1 {
      var front := diffs[..|diffs| - 1];
      DiffsByPathLastWins(front, i);
    }
  }

  /** The diff git compares a commit with: against its first parent, or on its own for a root commit. */
  function CommitDiffs(c: Commit): Result<seq<Diff>> {
    if |c.parents| > 0 then c.firstParentDiff else c.ownDiff
  }

  /** The record for one statistics entry and the diff found for it: size first, then type. */
  function DiffRecordFor(ids: IdScheme, sensorId: string, repoTmId: Option<string>, c: Commit,
                         entry: StatEntry, diff: Diff): Result<DiffRecord>
  {
    var size :- DiffSize(diff);
    var kind :- DiffType(diff);
    Ok(DiffRecord(entry.stats, ids.gitCommitDiff(c.hexsha, entry.path), sensorId, repoTmId,
                  ids.gitCommit(c.hexsha), diff.aPath, diff.bPath,
                  ids.gitPath(repoTmId, diff.aPath), ids.gitPath(repoTmId, diff.bPath),
                  size, if kind.Some? then Some(Code(kind.value)) else None))
  }

  /** A diff record raises the size's error first, then the type's; otherwise it joins the
      statistics entry with the diff's paths, its size change and the one-letter code of its type,
      under the commit's identifiers. */
  lemma DiffRecordJoins(ids: IdScheme, sensorId: string, repoTmId: Option<string>, c: Commit,
                        entry: StatEntry, diff: Diff)
    ensures var r := DiffRecordFor(ids, sensorId, repoTmId, c, entry, diff);
            && (r.Err? <==> DiffSize(diff).Err? || DiffType(diff).Err?)
            && (r.Err? ==> r.error == (if DiffSize(diff).Err? then DiffSize(diff).error else DiffType(diff).error))
            && (r.Ok? ==> && r.value.tmId == ids.gitCommitDiff(c.hexsha, entry.path)
                          && r.value.commitId == ids.gitCommit(c.hexsha)
                          && r.value.repoId == repoTmId && r.value.sensorId == sensorId
                          && r.value.stats == entry.stats
                          && r.value.aPath == diff.aPath && r.value.bPath == diff.bPath
                          && r.value.aObjectId == ids.gitPath(repoTmId, diff.aPath)
                          && r.value.bObjectId == ids.gitPath(repoTmId, diff.bPath)
                          && r.value.sizeDelta == DiffSize(diff).value
                          && (DiffType(diff).value.Some? <==> r.value.changeType.Some?)
                          && (DiffType(diff).value.Some? ==> r.value.changeType.value == Code(DiffType(diff).value.value)))
  {}

  /** The key under which a statistics path is looked up. */
  function Key(entry: StatEntry): Option<string> {
    Some(GetPath(entry.path))
  }

  /** A generator driven by a per-item step: None skips the item, Ok yields a value, and an error
      is raised, ending the generator. */
  function Collect<X, Y>(xs: seq<X>, step: X -> Option<Result<Y>>): Stream<Y>
    decreases |xs|
  {
    if xs == [] then Stream([], Finished)
    else
      match step(xs[0])
      case None => Collect(xs[1..], step)
      case Some(Err(e)) => Stream([], Raised(e))
      case Some(Ok(y)) => Prepend([y], Collect(xs[1..], step))
  }

  /** The items the step does not skip, in order. */
  function Chosen<X, Y>(xs: seq<X>, step: X -> Option<Result<Y>>): (m: seq<X>)
    ensures |m| <= |xs|
    decreases |xs|
  {
    if xs == [] then []
    else (if step(xs[0]).Some? then [xs[0]] else []) + Chosen(xs[1..], step)
  }

  /** The generator yields the values of the chosen items in order; when it raises, it does so at
      the first chosen item whose step fails, after the values of the chosen items before it. */
  lemma {:induction false} CollectYieldsChosen<X, Y>(xs: seq<X>, step: X -> Option<Result<Y>>)
    ensures var s, m := Collect(xs, step), Chosen(xs, step);
            && |s.items| <= |m|
            && (forall k :: 0 <= k < |s.items| ==> step(m[k]) == Some(Ok(s.items[k])))
            && (s.halt == Finished ==> |s.items| == |m|)
            && (s.halt.Raised? ==> (|s.items| < |m| && step(m[|s.items|]) == Some(Err(s.halt.error))))
    decreases |xs|
  {
    if xs != [] {
      CollectYieldsChosen(xs[1..], step);
      var rest, restM := Collect(xs[1..], step), Chosen(xs[1..], step);
      match step(xs[0])
      case None =>
        assert Chosen(xs, step) == restM;
      case Some(Err(e)) =>
        assert Chosen(xs, step)[0] == xs[0];
      case Some(Ok(y)) =>
        var s, m := Collect(xs, step), Chosen(xs, step);
        assert s.items == [y] + rest.items && s.halt == rest.halt;
        assert m == [xs[0]] + restM;
        forall k | 0 <= k < |s.items| ensures step(m[k]) == Some(Ok(s.items[k])) {
          if k > 0 { assert m[k] == restM[k - 1] && s.items[k] == rest.items[k - 1]; }
        }
        if s.halt.Raised? {
          assert m[|s.items|] == restM[|rest.items|];
        }
    }
  }

  /** One more step of the generator, from a point where `yielded` has been yielded. */
  lemma CollectNext<X, Y>(xs: seq<X>, step: X -> Option<Result<Y>>, i: nat, yielded: seq<Y>)
    requires i < |xs| && Collect(xs, step) == Prepend(yielded, Collect(xs[i..], step))
    ensures step(xs[i]).None? ==> Collect(xs, step) == Prepend(yielded, Collect(xs[i + 1..], step))
    ensures step(xs[i]).Some? && step(xs[i]).value.Ok? ==>
              Collect(xs, step) == Prepend(yielded + [step(xs[i]).value.value], Collect(xs[i + 1..], step))
    ensures step(xs[i]).Some? && step(xs[i]).value.Err? ==>
              Collect(xs, step) == Stream(yielded, Raised(step(xs[i]).value.error))
  {
    assert xs[i..][1..] == xs[i + 1..];
    if step(xs[i]).Some? && step(xs[i]).value.Ok? {
      var rest := Collect(xs[i + 1..], step);
      assert yielded + [step(xs[i]).value.value] + rest.items == yielded + ([step(xs[i]).value.value] + rest.items);
    }
  }

  /** One step of the join: entries whose key has no diff are skipped. */
  function JoinStep(ids: IdScheme, sensorId: string, repoTmId: Option<string>, c: Commit,
                    byPath: map<Option<string>, Diff>, entry: StatEntry): Option<Result<DiffRecord>>
  {
    if Key(entry) in byPath then Some(DiffRecordFor(ids, sensorId, repoTmId, c, entry, byPath[Key(entry)]))
    else None
  }

  /** The join step as a function of the entry. */
  function Joiner(ids: IdScheme, sensorId: string, repoTmId: Option<string>, c: Commit,
                  byPath: map<Option<string>, Diff>): StatEntry -> Option<Result<DiffRecord>>
  {
    e => JoinStep(ids, sensorId, repoTmId, c, byPath, e)
  }

  /** What the join loop yields from `entries`. */
  function DiffStream(ids: IdScheme, sensorId: string, repoTmId: Option<string>, c: Commit,
                      entries: seq<StatEntry>, byPath: map<Option<string>, Diff>): Stream<DiffRecord>
  {
    Collect(entries, Joiner(ids, sensorId, repoTmId, c, byPath))
  }

  /** What load_commit_diffs yields: the commit's diff and statistics are read first. */
  function CommitDiffStream(ids: IdScheme, sensorId: string, repoTmId: Option<string>, c: Commit): Stream<DiffRecord> {
    match CommitDiffs(c)
    case Err(e) => Stream([], Raised(e))
    case Ok(diffs) =>
      match c.stats
      case Err(e) => Stream([], Raised(e))
      case Ok(entries) => DiffStream(ids, sensorId, repoTmId, c, entries, DiffsByPath(diffs))
  }

  /** The entries that have a diff, in statistics order. */
  function Matched(entries: seq<StatEntry>, byPath: map<Option<string>, Diff>): (m: seq<StatEntry>)
    ensures |m| <= |entries|
    ensures forall k :: 0 <= k < |m| ==> m[k] in entries && Key(m[k]) in byPath
    ensures forall e :: e in entries && Key(e) in byPath ==> e in m
  {
    if entries == [] then []
    else (if Key(entries[0]) in byPath then [entries[0]] else []) + Matched(entries[1..], byPath)
  }

  /** Matching distributes over appending statistics entries, so the matched entries keep the
      statistics' order. */
  lemma {:induction false} MatchedAppend(a: seq<StatEntry>, b: seq<StatEntry>, byPath: map<Option<string>, Diff>)
    ensures Matched(a + b, byPath) == Matched(a, byPath) + Matched(b, byPath)
    decreases |a|
  {
    if a == [] {
      assert a + b == b;
    } else {
      assert (a + b)[0] == a[0];
      assert (a + b)[1..] == a[1..] + b;
      MatchedAppend(a[1..], b, byPath);
    }
  }

  /** The entries the join chooses are exactly those whose key has a diff. */
  lemma {:induction false} ChosenAreMatched(ids: IdScheme, sensorId: string, repoTmId: Option<string>, c: Commit,
                                            entries: seq<StatEntry>, byPath: map<Option<string>, Diff>)
    ensures Chosen(entries, Joiner(ids, sensorId, repoTmId, c, byPath)) == Matched(entries, byPath)
    decreases |entries|
  {
    if entries != [] {
      ChosenAreMatched(ids, sensorId, repoTmId, c, entries[1..], byPath);
    }
  }

  /** The join yields, in statistics order, the records of the entries that have a diff; when a
      record raises, the join ends there, after the records of the entries before it. */
  lemma DiffStreamIsJoin(ids: IdScheme, sensorId: string, repoTmId: Option<string>, c: Commit,
                         entries: seq<StatEntry>, byPath: map<Option<string>, Diff>)
    ensures var s := DiffStream(ids, sensorId, repoTmId, c, entries, byPath);
            var m := Matched(entries, byPath);
            && |s.items| <= |m|
            && (forall k :: 0 <= k < |s.items| ==>
                  DiffRecordFor(ids, sensorId, repoTmId, c, m[k], byPath[Key(m[k])]) == Ok(s.items[k]))
            && (s.halt == Finished ==> |s.items| == |m|)
            && (s.halt.Raised? ==>
                  (|s.items| < |m| && DiffRecordFor(ids, sensorId, repoTmId, c, m[|s.items|], byPath[Key(m[|s.items|])]) == Err(s.halt.error)))
  {
    CollectYieldsChosen(entries, Joiner(ids, sensorId, repoTmId, c, byPath));
    ChosenAreMatched(ids, sensorId, repoTmId, c, entries, byPath);
  }

  // ----- extract_commits_and_history -----

  /** The commit record, built in the order of the source's dict: the diffs (running the join),
      then the author, committer, parents and the remaining attributes. */
  function CommitRecordFor(ids: IdScheme, sensorId: string, repoTmId: Option<string>, c: Commit): Result<CommitRecord>
  {
    var d := CommitDiffStream(ids, sensorId, repoTmId, c);
    if d.halt.Raised? then Err(d.halt.error)
    else
      var meta :- c.meta;
      Ok(CommitRecord(ids.gitCommit(c.hexsha), sensorId, repoTmId, Some(d.items),
                      meta.author.name, meta.author.email, meta.committer.name, meta.committer.email,
                      seq(|c.parents|, k requires 0 <= k < |c.parents| => ids.gitCommit(c.parents[k])),
                      c.hexsha, meta.authoredDate, meta.committedDate, meta.message, meta.summary))
  }

  /** A commit record raises the diffs' error first, then that of reading the attributes; otherwise
      it holds every diff record of the commit, the commit's ids and the ids of its parents. */
  lemma CommitRecordFields(ids: IdScheme, sensorId: string, repoTmId: Option<string>, c: Commit)
    ensures var r, d := CommitRecordFor(ids, sensorId, repoTmId, c), CommitDiffStream(ids, sensorId, repoTmId, c);
            && (r.Err? <==> d.halt.Raised? || c.meta.Err?)
            && (r.Err? ==> r.error == (if d.halt.Raised? then d.halt.error else c.meta.error))
            && (r.Ok? ==> && r.value.tmId == ids.gitCommit(c.hexsha) && r.value.hexsha == c.hexsha
                          && r.value.repoId == repoTmId && r.value.sensorId == sensorId
                          && r.value.diffs == Some(d.items)
                          && r.value.authoredDate == c.meta.value.authoredDate
                          && ParentIds(ids, c.parents, r.value.parents))
  {}

  /** `parents` holds the commit ids of `hexshas`, in order. */
  predicate ParentIds(ids: IdScheme, hexshas: seq<string>, parents: seq<string>) {
    |parents| == |hexshas| && forall k :: 0 <= k < |hexshas| ==> parents[k] == ids.gitCommit(hexshas[k])
  }

  /** What the processing loop yields from the walked `commits`; `halt` is how the walk ended. */
  function CommitStream(ids: IdScheme, sensorId: string, repoTmId: Option<string>, commits: seq<Commit>,
                        halt: Halt, ignoreErrors: bool): Stream<CommitRecord>
    decreases |commits|
  {
    if commits == [] then Stream([], halt)
    else
      match CommitRecordFor(ids, sensorId, repoTmId, commits[0])
      case Ok(r) => Prepend([r], CommitStream(ids, sensorId, repoTmId, commits[1..], halt, ignoreErrors))
      case Err(e) =>
        if ignoreErrors then CommitStream(ids, sensorId, repoTmId, commits[1..], halt, ignoreErrors)
        else Stream([], Raised(e))
  }

  /** One more step of the processing loop, from a point where `yielded` has been yielded. */
  lemma CommitStreamNext(ids: IdScheme, sensorId: string, repoTmId: Option<string>, commits: seq<Commit>,
                         halt: Halt, ignoreErrors: bool, i: nat, yielded: seq<CommitRecord>)
    requires i < |commits|
    requires CommitStream(ids, sensorId, repoTmId, commits, halt, ignoreErrors)
             == Prepend(yielded, CommitStream(ids, sensorId, repoTmId, commits[i..], halt, ignoreErrors))
    ensures var r := CommitRecordFor(ids, sensorId, repoTmId, commits[i]);
            var all, rest := CommitStream(ids, sensorId, repoTmId, commits, halt, ignoreErrors),
                             CommitStream(ids, sensorId, repoTmId, commits[i + 1..], halt, ignoreErrors);
            && (r.Ok? ==> all == Prepend(yielded + [r.value], rest))
            && (r.Err? && ignoreErrors ==> all == Prepend(yielded, rest))
            && (r.Err? && !ignoreErrors ==> all == Stream(yielded, Raised(r.error)))
  {
    assert commits[i..][1..] == commits[i + 1..];
    var r := CommitRecordFor(ids, sensorId, repoTmId, commits[i]);
    if r.Ok? {
      var rest := CommitStream(ids, sensorId, repoTmId, commits[i + 1..], halt, ignoreErrors);
      assert yielded + [r.value] + rest.items == yielded + ([r.value] + rest.items);
    }
  }

  /** The records of the commits that process without error, in walk order. */
  function GoodRecords(ids: IdScheme, sensorId: string, repoTmId: Option<string>, commits: seq<Commit>): (rs: seq<CommitRecord>)
    ensures |rs| <= |commits|
  {
    if commits == [] then []
    else
      (match CommitRecordFor(ids, sensorId, repoTmId, commits[0])
       case Ok(r) => [r]
       case Err(_) => [])
      + GoodRecords(ids, sensorId, repoTmId, commits[1..])
  }

  /** With ignore_errors, exactly the commits whose processing raises are dropped, the order is
      kept and the walk ends the stream as it ended itself. */
  lemma {:induction false} IgnoreErrorsDropsFailures(ids: IdScheme, sensorId: string, repoTmId: Option<string>,
                                                     commits: seq<Commit>, halt: Halt)
    ensures CommitStream(ids, sensorId, repoTmId, commits, halt, true)
            == Stream(GoodRecords(ids, sensorId, repoTmId, commits), halt)
    decreases |commits|
  {
    if commits != [] {
      IgnoreErrorsDropsFailures(ids, sensorId, repoTmId, commits[1..], halt);
    }
  }

  /** Without ignore_errors, the records of the commits before the first failing one are yielded
      and then its error is raised; with no failure the stream is the full list of records. */
  lemma {:induction false} ErrorsPropagate(ids: IdScheme, sensorId: string, repoTmId: Option<string>,
                                           commits: seq<Commit>, halt: Halt)
    ensures var s := CommitStream(ids, sensorId, repoTmId, commits, halt, false);
            && |s.items| <= |commits|
            && (forall k :: 0 <= k < |s.items| ==> CommitRecordFor(ids, sensorId, repoTmId, commits[k]) == Ok(s.items[k]))
            && (|s.items| < |commits| ==> (CommitRecordFor(ids, sensorId, repoTmId, commits[|s.items|]).Err?
                                          && s.halt == Raised(CommitRecordFor(ids, sensorId, repoTmId, commits[|s.items|]).error)))
            && (|s.items| == |commits| ==> s.halt == halt)
    decreases |commits|
  {
    if commits != [] {
      ErrorsPropagate(ids, sensorId, repoTmId, commits[1..], halt);
    }
  }

  /** When every commit fails and errors are ignored, no commit record is produced (the
      ignore-errors test). */
  lemma AllFailuresIgnored(ids: IdScheme, sensorId: string, repoTmId: Option<string>, commits: seq<Commit>, halt: Halt)
    requires forall k :: 0 <= k < |commits| ==> CommitRecordFor(ids, sensorId, repoTmId, commits[k]).Err?
    ensures CommitStream(ids, sensorId, repoTmId, commits, halt, true) == Stream([], halt)
  {
    IgnoreErrorsDropsFailures(ids, sensorId, repoTmId, commits, halt);
    NoGoodRecords(ids, sensorId, repoTmId, commits);
  }

  lemma {:induction false} NoGoodRecords(ids: IdScheme, sensorId: string, repoTmId: Option<string>, commits: seq<Commit>)
    requires forall k :: 0 <= k < |commits| ==> CommitRecordFor(ids, sensorId, repoTmId, commits[k]).Err?
    ensures GoodRecords(ids, sensorId, repoTmId, commits) == []
    decreases |commits|
  {
    if commits != [] {
      assert CommitRecordFor(ids, sensorId, repoTmId, commits[0]).Err?;
      NoGoodRecords(ids, sensorId, repoTmId, commits[1..]);
    }
  }

  // ----- The extractor -----

  /** What a run of the extractor depends on: its configuration after construction. */
  datatype Settings = Settings(ids: IdScheme, customerId: string, sourceId: string, sensorId: string,
                               repoTmId: Option<string>, forcedRepoName: Option<string>, autogenerateRepoId: bool,
                               repoLinkUrl: Option<string>, useRepoLinkFromRemote: bool)

  /** The repo id generated from the remote's name, never from the forced name. */
  function RepoIdFromRemoteName(cfg: Settings, repo: Repo): string {
    cfg.ids.gitRepo(cfg.customerId, cfg.sourceId, RepoNameFromRemote(repo))
  }

  class GitRepoExtractor {
    const ids: IdScheme
    const cloneUrlOrPath: string
    const customerId: string
    const sourceId: string
    const sensorId: string
    const repoTmId: Option<string>
    const forcedRepoName: Option<string>
    const autogenerateRepoId: bool
    const repoLinkUrl: Option<string>
    const useRepoLinkFromRemote: bool
    const useNonNativeRepoDb: bool

    function Config(): Settings {
      Settings(ids, customerId, sourceId, sensorId, repoTmId, forcedRepoName, autogenerateRepoId,
               repoLinkUrl, useRepoLinkFromRemote)
    }

    /** Construction succeeded: there is a repo id, or one is to be generated. */
    predicate Valid() {
      Truthy(repoTmId) || autogenerateRepoId
    }

    /** `__init__` once its validation has passed: customer and source come from the sensor when
        there is one, and the sensor id is derived from them otherwise. */
    constructor (ids: IdScheme, cloneUrlOrPath: string, sensor: Option<Sensor>,
                 customerId: Option<string>, sourceId: Option<string>, repoTmId: Option<string>,
                 forcedRepoName: Option<string>, autogenerateRepoId: bool, repoLinkUrl: Option<string>,
                 useRepoLinkUrlFromRemote: bool, useNonNativeRepoDb: bool)
      requires InitCheck(sensor, customerId, sourceId, repoTmId, autogenerateRepoId).Ok?
      ensures Valid()
      ensures this.ids == ids && this.cloneUrlOrPath == cloneUrlOrPath
      ensures this.customerId == (if sensor.Some? then sensor.value.customerId else customerId.value)
      ensures this.sourceId == (if sensor.Some? then sensor.value.sourceId else sourceId.value)
      ensures this.sensorId == (if sensor.Some? then sensor.value.tmId
                                else ids.sensor(customerId.value, GitSourceType, sourceId.value))
      ensures this.repoTmId == repoTmId && this.forcedRepoName == forcedRepoName
      ensures this.autogenerateRepoId == autogenerateRepoId && this.repoLinkUrl == repoLinkUrl
      ensures this.useRepoLinkFromRemote == useRepoLinkUrlFromRemote && this.useNonNativeRepoDb == useNonNativeRepoDb
    {
      this.ids := ids;
      this.cloneUrlOrPath := cloneUrlOrPath;
      this.customerId := if sensor.Some? then sensor.value.customerId else customerId.value;
      this.sourceId := if sensor.Some? then sensor.value.sourceId else sourceId.value;
      this.sensorId := if sensor.Some? then sensor.value.tmId
                       else ids.sensor(customerId.value, GitSourceType, sourceId.value);
      this.repoTmId := repoTmId;
      this.forcedRepoName := forcedRepoName;
      this.autogenerateRepoId := autogenerateRepoId;
      this.repoLinkUrl := repoLinkUrl;
      this.useRepoLinkFromRemote := useRepoLinkUrlFromRemote;
      this.useNonNativeRepoDb := useNonNativeRepoDb;
    }

    /** generate_repo_id_from_remote_name: from the remote's name, never the forced name. */
    function GenerateRepoIdFromRemoteName(repo: Repo): (id: string)
      ensures id == RepoIdFromRemoteName(Config(), repo)
      ensures forall forced :: id == RepoIdFromRemoteName(Config().(forcedRepoName := forced), repo)
    {
      ids.gitRepo(customerId, sourceId, RepoNameFromRemote(repo))
    }

    /** load_commit_diffs: the `a_path` map of the commit's diff, then one record per statistics
        entry whose normalised path is in it, yielded as it is built. */
    method LoadCommitDiffs(repoTmId: Option<string>, c: Commit) returns (out: Stream<DiffRecord>)
      ensures out == CommitDiffStream(ids, sensorId, repoTmId, c)
    {
      var diffs := CommitDiffs(c);
      if diffs.Err? {
        return Stream([], Raised(diffs.error));
      }
      var byPath := DiffsByPath(diffs.value);
      if c.stats.Err? {
        return Stream([], Raised(c.stats.error));
      }
      out := JoinStats(c.stats.value, Joiner(ids, sensorId, repoTmId, c, byPath));
    }

    /** The loop of load_commit_diffs over the statistics entries; `step` looks an entry up and
        builds its record. */
    static method JoinStats(entries: seq<StatEntry>, step: StatEntry -> Option<Result<DiffRecord>>)
      returns (out: Stream<DiffRecord>)
      ensures out == Collect(entries, step)
    {
      var yielded: seq<DiffRecord> := [];
      var i := 0;
      while i < |entries|
        invariant 0 <= i <= |entries|
        invariant Collect(entries, step) == Prepend(yielded, Collect(entries[i..], step))
      {
        CollectNext(entries, step, i, yielded);
        // None when the entry's path has no diff, else the record or the error building it raised.
        var r := step(entries[i]);
        if r.Some? {
          if r.value.Err? {
            return Stream(yielded, Raised(r.value.error));
          }
          yielded := yielded + [r.value.value];
        }
        i := i + 1;
      }
      assert entries[i..] == [];
      out := Stream(yielded, Finished);
    }

    /** extract_commits_and_history: the commits of the walk, each turned into a record; a commit
        whose processing raises is skipped when errors are ignored and ends the stream otherwise. */
    method ExtractCommitsAndHistory(repo: Repo, repoTmId: Option<string>, rev: string,
                                    fallback: Option<string>, ignoreErrors: bool) returns (out: Stream<CommitRecord>)
      ensures var w := Walked(repo, rev, fallback, true);
              out == CommitStream(ids, sensorId, repoTmId, w.items, w.halt, ignoreErrors)
    {
      var w := CommitsIter(repo, rev, fallback, true);
      out := ProcessCommits(repoTmId, w.items, w.halt, ignoreErrors);
    }

    /** The processing loop over the walked commits: a failing commit is skipped when errors are
        ignored and ends the stream otherwise. */
    method ProcessCommits(repoTmId: Option<string>, commits: seq<Commit>, halt: Halt, ignoreErrors: bool)
      returns (out: Stream<CommitRecord>)
      ensures out == CommitStream(ids, sensorId, repoTmId, commits, halt, ignoreErrors)
    {
      var yielded: seq<CommitRecord> := [];
      var i := 0;
      while i < |commits|
        invariant 0 <= i <= |commits|
        invariant CommitStream(ids, sensorId, repoTmId, commits, halt, ignoreErrors)
                  == Prepend(yielded, CommitStream(ids, sensorId, repoTmId, commits[i..], halt, ignoreErrors))
      {
        var raised;
        yielded, raised := ProcessStep(repoTmId, commits, halt, ignoreErrors, i, yielded);
        if raised.Some? {
          return Stream(yielded, Raised(raised.value));
        }
        i := i + 1;
      }
      assert commits[i..] == [];
      out := Stream(yielded, halt);
    }

    /** One turn of the processing loop: the record of commit `i` is yielded, skipped, or raises. */
    method ProcessStep(repoTmId: Option<string>, commits: seq<Commit>, halt: Halt, ignoreErrors: bool,
                       i: nat, yielded: seq<CommitRecord>) returns (next: seq<CommitRecord>, raised: Option<Error>)
      requires i < |commits|
      requires CommitStream(ids, sensorId, repoTmId, commits, halt, ignoreErrors)
               == Prepend(yielded, CommitStream(ids, sensorId, repoTmId, commits[i..], halt, ignoreErrors))
      ensures raised.None? ==> CommitStream(ids, sensorId, repoTmId, commits, halt, ignoreErrors)
                               == Prepend(next, CommitStream(ids, sensorId, repoTmId, commits[i + 1..], halt, ignoreErrors))
      ensures raised.Some? ==> CommitStream(ids, sensorId, repoTmId, commits, halt, ignoreErrors)
                               == Stream(next, Raised(raised.value))
    {
      var record := ProcessCommit(repoTmId, commits[i]);
      CommitStreamNext(ids, sensorId, repoTmId, commits, halt, ignoreErrors, i, yielded);
      next, raised := yielded, None;
      if record.Err? {
        if !ignoreErrors {
          raised := Some(record.error);
        }
      } else {
        next := yielded + [record.value];
      }
    }

    /** The body of the processing loop: the diffs are loaded first, then the remaining attributes. */
    method ProcessCommit(repoTmId: Option<string>, c: Commit) returns (record: Result<CommitRecord>)
      ensures record == CommitRecordFor(ids, sensorId, repoTmId, c)
    {
      var diffs := LoadCommitDiffs(repoTmId, c);
      if diffs.halt.Raised? {
        return Err(diffs.halt.error);
      }
      if c.meta.Err? {
        return Err(c.meta.error);
      }
      var meta := c.meta.value;
      var parents := seq(|c.parents|, k requires 0 <= k < |c.parents| => ids.gitCommit(c.parents[k]));
      record := Ok(CommitRecord(ids.gitCommit(c.hexsha), sensorId, repoTmId, Some(diffs.items),
                                meta.author.name, meta.author.email, meta.committer.name, meta.committer.email,
                                parents, c.hexsha, meta.authoredDate, meta.committedDate, meta.message, meta.summary));
    }

    /** `__call__` on an opened repository (`outcome` is the outcome of cloning or opening it):
        every commit record, then one repo record. */
    method Run(outcome: Result<Repo>, rev: string, fallback: Option<string>, ignoreErrors: bool) returns (out: Stream<Item>)
      requires Valid()
      ensures out == Emitted(Config(), outcome, rev, fallback, ignoreErrors)
      ensures out.halt == Finished ==> EndsWithStampedRepo(out.items)
    {
      if outcome.Err? {
        return Stream([], Raised(outcome.error));
      }
      var repo := outcome.value;
      var repoName := if Truthy(forcedRepoName) then forcedRepoName else RepoNameFromRemote(repo);
      if !Truthy(repoName) {
        return Stream([], Raised(NoRepoName));
      }
      var repoId := repoTmId;
      if !Truthy(repoId) && autogenerateRepoId {
        repoId := Some(GenerateRepoIdFromRemoteName(repo));
      }
      if repo.check.Err? {
        return Stream([], Raised(repo.check.error));
      }
      out := EmitRecords(repo, repoName.value, repoId, rev, fallback, ignoreErrors);
    }

    /** The streaming part of `__call__`, once the name and the id are resolved and the repository
        checked: the commit records, and the repo record when the walk completes. */
    method EmitRecords(repo: Repo, repoName: string, repoId: Option<string>, rev: string,
                       fallback: Option<string>, ignoreErrors: bool) returns (out: Stream<Item>)
      ensures out == EmittedRecords(Config(), repo, repoName, repoId, rev, fallback, ignoreErrors)
      ensures out.halt == Finished && repoId.Some? ==> EndsWithStampedRepo(out.items)
    {
      var commits := ExtractCommitsAndHistory(repo, repoId, rev, fallback, ignoreErrors);
      var items := TagCommits(commits.items);
      if commits.halt.Raised? {
        return Stream(items, commits.halt);
      }
      var link := repoLinkUrl;
      if !Truthy(link) && useRepoLinkFromRemote {
        link := RepoUrlFromRemote(repo, "origin");
      }
      out := Stream(items + [Item(GitRepoType, RepoPayload(RepoRecord(repoId, sensorId, repoName, link)))], Finished);
    }
  }

  /** The loop of `__call__` that yields each commit record under the commit type. */
  method TagCommits(records: seq<CommitRecord>) returns (items: seq<Item>)
    ensures items == CommitItems(records)
  {
    items := [];
    var i := 0;
    while i < |records|
      invariant 0 <= i <= |records|
      invariant items == CommitItems(records[..i])
    {
      assert records[..i + 1][..i] == records[..i];
      items := items + [Item(GitCommitType, CommitPayload(records[i]))];
      i := i + 1;
    }
    assert records[..i] == records;
  }

  /** The commit records, tagged. */
  function CommitItems(records: seq<CommitRecord>): (items: seq<Item>)
    ensures |items| == |records|
    ensures forall k :: 0 <= k < |records| ==> items[k] == Item(GitCommitType, CommitPayload(records[k]))
  {
    if records == [] then [] else CommitItems(records[..|records| - 1]) + [Item(GitCommitType, CommitPayload(records[|records| - 1]))]
  }

  /** The repo name of a run: the forced one, else the remote's. */
  function RunRepoName(cfg: Settings, repo: Repo): Option<string> {
    if Truthy(cfg.forcedRepoName) then cfg.forcedRepoName else RepoNameFromRemote(repo)
  }

  /** The repo id of a run: the given one, else generated when asked for. */
  function RunRepoId(cfg: Settings, repo: Repo): Option<string> {
    if !Truthy(cfg.repoTmId) && cfg.autogenerateRepoId then Some(RepoIdFromRemoteName(cfg, repo)) else cfg.repoTmId
  }

  /** The link URL of the repo record: the explicit one, else the origin's URL when asked for. */
  function RunLinkUrl(cfg: Settings, repo: Repo): Option<string> {
    if !Truthy(cfg.repoLinkUrl) && cfg.useRepoLinkFromRemote then RepoUrlFromRemote(repo, "origin") else cfg.repoLinkUrl
  }

  /** What `__call__` emits. */
  function Emitted(cfg: Settings, outcome: Result<Repo>, rev: string, fallback: Option<string>,
                   ignoreErrors: bool): Stream<Item>
  {
    match outcome
    case Err(e) => Stream([], Raised(e))
    case Ok(repo) =>
      var name := RunRepoName(cfg, repo);
      if !Truthy(name) then Stream([], Raised(NoRepoName))
      else if repo.check.Err? then Stream([], Raised(repo.check.error))
      else EmittedRecords(cfg, repo, name.value, RunRepoId(cfg, repo), rev, fallback, ignoreErrors)
  }

  /** The records `__call__` emits once the repository is resolved: the tagged commit records,
      and the repo record when the commit stream completes. */
  function EmittedRecords(cfg: Settings, repo: Repo, name: string, repoId: Option<string>, rev: string,
                          fallback: Option<string>, ignoreErrors: bool): Stream<Item>
  {
    var w := Walked(repo, rev, fallback, true);
    var commits := CommitStream(cfg.ids, cfg.sensorId, repoId, w.items, w.halt, ignoreErrors);
    if commits.halt.Raised? then Stream(CommitItems(commits.items), commits.halt)
    else Stream(CommitItems(commits.items)
                + [Item(GitRepoType, RepoPayload(RepoRecord(repoId, cfg.sensorId, name, RunLinkUrl(cfg, repo))))],
                Finished)
  }

  /** Every item is a tagged commit record. */
  predicate CommitsOnly(s: seq<Item>) {
    forall k :: 0 <= k < |s| ==> s[k].tag == GitCommitType && s[k].payload.CommitPayload?
  }

  /** A run that completes emits commit records only, then exactly one repo record, last. */
  lemma RunEndsWithOneRepo(cfg: Settings, outcome: Result<Repo>, rev: string, fallback: Option<string>, ignoreErrors: bool)
    requires Emitted(cfg, outcome, rev, fallback, ignoreErrors).halt == Finished
    ensures var s := Emitted(cfg, outcome, rev, fallback, ignoreErrors).items;
            && |s| >= 1 && s[|s| - 1].tag == GitRepoType && s[|s| - 1].payload.RepoPayload?
            && CommitsOnly(s[..|s| - 1])
  {
    var repo := outcome.value;
    var repoId := RunRepoId(cfg, repo);
    var w := Walked(repo, rev, fallback, true);
    var commits := CommitStream(cfg.ids, cfg.sensorId, repoId, w.items, w.halt, ignoreErrors);
    var last := Item(GitRepoType, RepoPayload(RepoRecord(repoId, cfg.sensorId, RunRepoName(cfg, repo).value, RunLinkUrl(cfg, repo))));
    var s := Emitted(cfg, outcome, rev, fallback, ignoreErrors).items;
    assert s == CommitItems(commits.items) + [last];
    assert s[..|s| - 1] == CommitItems(commits.items);
  }

  /** A run that raises has emitted commit records only. */
  lemma RunFailureEmitsNoRepo(cfg: Settings, outcome: Result<Repo>, rev: string, fallback: Option<string>, ignoreErrors: bool)
    requires Emitted(cfg, outcome, rev, fallback, ignoreErrors).halt.Raised?
    ensures CommitsOnly(Emitted(cfg, outcome, rev, fallback, ignoreErrors).items)
  {
    if outcome.Ok? && Truthy(RunRepoName(cfg, outcome.value)) && outcome.value.check.Ok? {
      var repo := outcome.value;
      var w := Walked(repo, rev, fallback, true);
      var commits := CommitStream(cfg.ids, cfg.sensorId, RunRepoId(cfg, repo), w.items, w.halt, ignoreErrors);
      assert Emitted(cfg, outcome, rev, fallback, ignoreErrors).items == CommitItems(commits.items);
    }
  }

  /** The repo record: named by the forced name or the remote, with the run's repo id, the
      extractor's sensor and the link URL rule. */
  lemma RunRepoRecord(cfg: Settings, repo: Repo, rev: string, fallback: Option<string>, ignoreErrors: bool)
    requires Emitted(cfg, Ok(repo), rev, fallback, ignoreErrors).halt == Finished
    ensures var s := Emitted(cfg, Ok(repo), rev, fallback, ignoreErrors).items;
            var r := s[|s| - 1].payload.repo;
            && r.name == (if Truthy(cfg.forcedRepoName) then cfg.forcedRepoName.value else RepoNameFromRemote(repo).value)
            && r.name != ""
            && r.sensorId == cfg.sensorId
            && r.tmId == RunRepoId(cfg, repo)
            && r.url == (if Truthy(cfg.repoLinkUrl) then cfg.repoLinkUrl
                         else if cfg.useRepoLinkFromRemote then RepoUrlFromRemote(repo, "origin") else cfg.repoLinkUrl)
  {
    RunEndsWithOneRepo(cfg, Ok(repo), rev, fallback, ignoreErrors);
    var repoId := RunRepoId(cfg, repo);
    var w := Walked(repo, rev, fallback, true);
    var commits := CommitStream(cfg.ids, cfg.sensorId, repoId, w.items, w.halt, ignoreErrors);
    var s := Emitted(cfg, Ok(repo), rev, fallback, ignoreErrors).items;
    assert s[|s| - 1] == Item(GitRepoType, RepoPayload(RepoRecord(repoId, cfg.sensorId, RunRepoName(cfg, repo).value, RunLinkUrl(cfg, repo))));
  }

  /** Without a forced name and without a remote name the run raises before emitting anything. */
  lemma RunWithoutName(cfg: Settings, repo: Repo, rev: string, fallback: Option<string>, ignoreErrors: bool)
    requires !Truthy(cfg.forcedRepoName) && !Truthy(RepoNameFromRemote(repo))
    ensures Emitted(cfg, Ok(repo), rev, fallback, ignoreErrors) == Stream([], Raised(NoRepoName))
  {}

  /** An autogenerated repo id comes from the remote's name even when a name is forced, and every
      commit record of the run carries it. */
  lemma AutogeneratedIdUsesRemoteName(cfg: Settings, repo: Repo, rev: string, fallback: Option<string>, ignoreErrors: bool)
    requires !Truthy(cfg.repoTmId) && cfg.autogenerateRepoId
    ensures RunRepoId(cfg, repo) == Some(cfg.ids.gitRepo(cfg.customerId, cfg.sourceId, RepoNameFromRemote(repo)))
    ensures var s := Emitted(cfg, Ok(repo), rev, fallback, ignoreErrors).items;
            forall k :: 0 <= k < |s| && s[k].payload.CommitPayload? ==> s[k].payload.commit.repoId == RunRepoId(cfg, repo)
  {
    var w := Walked(repo, rev, fallback, true);
    var repoId := RunRepoId(cfg, repo);
    var commits := CommitStream(cfg.ids, cfg.sensorId, repoId, w.items, w.halt, ignoreErrors);
    RecordsCarryRepoId(cfg.ids, cfg.sensorId, repoId, w.items, w.halt, ignoreErrors);
    var s := Emitted(cfg, Ok(repo), rev, fallback, ignoreErrors).items;
    forall k | 0 <= k < |s| && s[k].payload.CommitPayload? ensures s[k].payload.commit.repoId == repoId {
      assert k < |commits.items| ==> s[k] == CommitItems(commits.items)[k];
    }
  }

  /** The last item is a repo record that carries a repo id. */
  predicate EndsWithStampedRepo(s: seq<Item>) {
    |s| >= 1 && s[|s| - 1].payload.RepoPayload? && s[|s| - 1].payload.repo.tmId.Some?
  }

  /** Every emitted record, commit or repo, carries a repo id. */
  predicate StampedWithRepoId(s: seq<Item>) {
    forall k :: 0 <= k < |s| ==>
      && (s[k].payload.CommitPayload? ==> s[k].payload.commit.repoId.Some?)
      && (s[k].payload.RepoPayload? ==> s[k].payload.repo.tmId.Some?)
  }

  /** An extractor that was given a repo id or asked to generate one stamps every record it emits
      with an id. */
  lemma RunStampsRepoId(cfg: Settings, outcome: Result<Repo>, rev: string, fallback: Option<string>, ignoreErrors: bool)
    requires Truthy(cfg.repoTmId) || cfg.autogenerateRepoId
    ensures StampedWithRepoId(Emitted(cfg, outcome, rev, fallback, ignoreErrors).items)
  {
    if outcome.Ok? && Truthy(RunRepoName(cfg, outcome.value)) && outcome.value.check.Ok? {
      var repo := outcome.value;
      var repoId := RunRepoId(cfg, repo);
      var w := Walked(repo, rev, fallback, true);
      var commits := CommitStream(cfg.ids, cfg.sensorId, repoId, w.items, w.halt, ignoreErrors);
      RecordsCarryRepoId(cfg.ids, cfg.sensorId, repoId, w.items, w.halt, ignoreErrors);
      var items := CommitItems(commits.items);
      assert StampedWithRepoId(items);
      var last := Item(GitRepoType, RepoPayload(RepoRecord(repoId, cfg.sensorId, RunRepoName(cfg, repo).value, RunLinkUrl(cfg, repo))));
      var tail := if commits.halt.Raised? then [] else [last];
      assert Emitted(cfg, outcome, rev, fallback, ignoreErrors).items == items + tail;
      StampedAppend(items, tail);
    }
  }

  lemma StampedAppend(a: seq<Item>, b: seq<Item>)
    requires StampedWithRepoId(a) && StampedWithRepoId(b)
    ensures StampedWithRepoId(a + b)
  {
    forall k | 0 <= k < |a + b|
      ensures && ((a + b)[k].payload.CommitPayload? ==> (a + b)[k].payload.commit.repoId.Some?)
              && ((a + b)[k].payload.RepoPayload? ==> (a + b)[k].payload.repo.tmId.Some?)
    {
      if k >= |a| {
        assert (a + b)[k] == b[k - |a|];
      }
    }
  }

  /** Every commit record carries the run's repo id, the extractor's sensor, its commit's id and
      its diffs. */
  predicate AllStamped(ids: IdScheme, sensorId: string, repoTmId: Option<string>, rs: seq<CommitRecord>) {
    forall k :: 0 <= k < |rs| ==> && rs[k].repoId == repoTmId && rs[k].sensorId == sensorId
                                  && rs[k].tmId == ids.gitCommit(rs[k].hexsha) && rs[k].diffs.Some?
  }

  /** Every record of the processing loop is stamped with the given repo id, the sensor and its
      commit's id, and holds its diffs. */
  lemma {:induction false} RecordsCarryRepoId(ids: IdScheme, sensorId: string, repoTmId: Option<string>,
                                              commits: seq<Commit>, halt: Halt, ignoreErrors: bool)
    ensures AllStamped(ids, sensorId, repoTmId, CommitStream(ids, sensorId, repoTmId, commits, halt, ignoreErrors).items)
    decreases |commits|
  {
    if commits != [] {
      RecordsCarryRepoId(ids, sensorId, repoTmId, commits[1..], halt, ignoreErrors);
      var s := CommitStream(ids, sensorId, repoTmId, commits, halt, ignoreErrors);
      var rest := CommitStream(ids, sensorId, repoTmId, commits[1..], halt, ignoreErrors);
      var r := CommitRecordFor(ids, sensorId, repoTmId, commits[0]);
      CommitRecordFields(ids, sensorId, repoTmId, commits[0]);
      if r.Ok? {
        assert s.items == [r.value] + rest.items;
        forall k | 0 <= k < |s.items|
          ensures s.items[k].repoId == repoTmId && s.items[k].sensorId == sensorId
                  && s.items[k].tmId == ids.gitCommit(s.items[k].hexsha) && s.items[k].diffs.Some?
        {
          if k > 0 { assert s.items[k] == rest.items[k - 1]; }
        }
      }
    }
  }
}
