# coco-agent git extraction, modelled in Dafny

This project models the commit-history extraction engine of coco-agent and proves
properties of the model. The engine reads a git repository and emits tagged records:

- one commit record per commit, carrying that commit's per-file diff records;
- one repository record, emitted last.

An ingestion step splits these records by type, sorts the commits by authored date, moves the
diffs out of the commits, and hands three batches to a store function. A JSON-lines store names
each file `customer__source__repo__type.jsonl`.

Two smaller parts are modelled beside it:

- the line classifier, which counts code, documentation, string and empty lines of a token stream;
- the upload planner, which chooses a storage bucket and the name each file of a directory gets
  in it.

The repository is handed in as data:

- its remotes;
- a commit walk per revision;
- for each commit: its diffs, statistics and attributes, each an outcome that may have failed.

Each identifier function of `tm_id` is a field of the `IdScheme` value. Generators are modelled as a
`Stream`: the items yielded, then `Finished` or `Raised(error)`. Python's truthiness of an optional
string is `Truthy` (present and non-empty).

Modules, one per file:

| file | module | models |
|---|---|---|
| results.dfy | Results | `Option`, `Result`, errors, `Stream` |
| text.dfy | Text | the Python string operations used (`strip`, `split`, `lower`, `in`, `os.path.join`) |
| identifiers.dfy | Identifiers | the `tm_id` functions, as parameters |
| export_names.dfy | ExportNames | `generate_git_export_file_name`, `parse_git_export_file_name` and its regular expression |
| rename_paths.dfy | RenamePaths | `get_path` and its regular expression |
| diff_classifier.dfy | DiffClassifier | `_diff_size`, `_diff_type` and the tolerated `SHA … could not be` error |
| repository.dfy | Repository | the repository as data, `get_repo_name_from_remote`, `get_repo_url_from_remote` |
| commit_walk.dfy | CommitWalk | `repo_commits_iter` with its one-level fallback |
| extractor.dfy | Extractor | `GitRepoExtractor`: construction, `load_commit_diffs`, `extract_commits_and_history`, `__call__` |
| ingestion.dfy | Ingestion | `ingest_and_store_repo` and `ingest_repo_to_jsonl` |
| line_classifier.dfy | LineClassifier | `_line_parts_patched` and `get_lines` |
| transfer.dfy | Transfer | `_bucket_name_from_customer_id` and `upload_dir_to_gcs` |

The generator loops are methods with loop invariants. Each method is proved equal to a
specification function, and the properties of that function are proved as lemmas.

## Model

| member | source | states |
|---|---|---|
| ExportNames.Generate | coco_agent/services/git.py:91-97 | raises "One or more file name parts missing" exactly when some part is missing or empty; otherwise `c__s__r__e.suffix` |
| ExportNames.Parse | coco_agent/services/git.py:14 | on a match, the five non-empty groups rebuild the name (with at most one trailing newline dropped); otherwise it raises the structure error for that name |
| ExportNames.DotSplit | coco_agent/services/git.py:14 | `(.+)\.(.+)$` fails exactly when there is no dot after the first character; a split rejoins to the text |
| ExportNames.Groups | coco_agent/services/git.py:14 | every match has the right number of non-empty groups and rejoins to the text |
| ExportNames.SepSearch | coco_agent/services/git.py:14 | the greedy first group returns only splits that rejoin to the text |
| ExportNames.DotSplitFinds | coco_agent/services/git.py:14 | the dot search splits at the right-most dot |
| ExportNames.SepSearchFinds | coco_agent/services/git.py:14 | the greedy search returns the right-most separator that leads to a match |
| ExportNames.SepSearchNone | coco_agent/services/git.py:14 | the search fails when no separator leads to a match |
| ExportNames.GroupsOfJoined | coco_agent/services/git.py:14 | the pattern splits a join of splittable parts back into exactly those parts |
| ExportNames.NoMatchInTail | coco_agent/services/git.py:14 | a tail following a later separator cannot hold all the groups still to be matched |
| ExportNames.ParseGenerate | coco_agent/services/git.py:91-104 | round trip: parsing a generated name gives back its parts, when no part holds `__` or a newline, the inner parts do not start with `_` and the suffix has no dot |
| ExportNames.ParseExample | tests/test_git.py:28-44 | `cust-id__source-id__repo-id__git_commits.jsonl` parses into its five parts |
| ExportNames.ExampleFileName | tests/test_git.py:14-25 | generating from the five example parts gives the example name |
| ExportNames.ParseRejectsUnseparated | coco_agent/services/git.py:100-104 | a name without `__` raises the structure error |
| ExportNames.ParseRejectsExample | tests/test_git.py:28-32 | `whatever` is rejected |
| RenamePaths.EndGroup | coco_agent/services/git.py:25-27 | the optional `}/(?P<end>.*)` group fails exactly when no `}/` follows, and is otherwise a suffix of the text |
| RenamePaths.PrefixSearch | coco_agent/services/git.py:25-27 | the optional first group fails exactly when no length of `start` lets the rest match |
| RenamePaths.ArrowSearchNone | coco_agent/services/git.py:25-27 | the greedy `a` group fails when no ` => ` lies in the searched range |
| RenamePaths.ArrowFromNone | coco_agent/services/git.py:25-27 | with no ` => ` from the start of `a` on, the rest of the pattern fails |
| RenamePaths.ArrowFromLast | coco_agent/services/git.py:25-27 | the greedy `a` group ends at the last ` => ` |
| RenamePaths.Present | coco_agent/services/git.py:31-32 | exactly the non-empty groups are kept, no more than there are groups |
| RenamePaths.PresentAppend | coco_agent/services/git.py:31-32 | keeping the non-empty groups distributes over appending groups, so their order is kept |
| RenamePaths.GetPathNoArrow | coco_agent/services/git.py:24-32 | a path without ` => ` is returned unchanged |
| RenamePaths.MatchBrace | coco_agent/services/git.py:25-27 | `P/{A => B}/S` matches with `start = P`, `a = A` and `end = S` (absent when `S` is empty) |
| RenamePaths.GetPathBrace | coco_agent/services/git.py:24-32 | `P/{A => B}/S` is looked up as the `/`-join of the non-empty parts among `P`, `A`, `S` |
| RenamePaths.MatchPlain | coco_agent/services/git.py:25-27 | `A => B` matches with only the `a` group, equal to `A` |
| RenamePaths.GetPathPlain | coco_agent/services/git.py:24-32 | `A => B` is looked up as `A` |
| RenamePaths.GetPathBraceExample | coco_agent/services/git.py:24-32 | `src/{old => new}/main.py` is looked up as `src/old/main.py` |
| RenamePaths.GetPathPlainExample | coco_agent/services/git.py:24-32 | `old.py => new.py` is looked up as `old.py` |
| DiffClassifier.Code | coco_agent/services/git.py:72-78 | the stored type is one letter: `R` exactly for a rename, `D` for a deletion, `A` for an addition, `M` for a modification |
| DiffClassifier.CodeInjective | coco_agent/services/git.py:72-78 | distinct change types get distinct letters |
| DiffClassifier.SizeOf | coco_agent/services/git.py:52-59 | reading the size of an absent blob raises AttributeError; a present blob gives its size outcome |
| DiffClassifier.Tolerate | coco_agent/services/git.py:60-64 | a value is passed through; a tolerated ValueError gives None; any other error is raised again unchanged |
| DiffClassifier.DiffSizeOfDeletion | coco_agent/services/git.py:50-52 | a deletion with no new blob is sized minus the old blob's size |
| DiffClassifier.DiffSizeOfAddition | coco_agent/services/git.py:54-56 | an addition with no old blob is sized by the new blob |
| DiffClassifier.DiffSizeOfOther | coco_agent/services/git.py:58-59 | any other diff is sized old minus new, as written |
| DiffClassifier.DiffSizeErrors | coco_agent/services/git.py:49-64 | every error raised is untolerated, and comes from a read or from an absent blob |
| DiffClassifier.DeletionOppositeOfAddition | coco_agent/services/git.py:50-56 | deleting and adding the same blob give opposite deltas |
| DiffClassifier.ModificationAntisymmetric | coco_agent/services/git.py:58-59 | reversing a modification negates its delta |
| DiffClassifier.MissingBlobPropagates | coco_agent/services/git.py:54-59 | an absent old blob outside a flagged addition raises AttributeError |
| DiffClassifier.OtherErrorsPropagate | coco_agent/services/git.py:60-64 | errors of other classes are raised whatever their text |
| DiffClassifier.FirstFailure | coco_agent/services/git.py:72-77 | the failure reported is one of the flag reads' errors |
| DiffClassifier.DiffTypePriority | coco_agent/services/git.py:72-78 | R if renamed, else D if deleted, else A if new, else M, each as an if-and-only-if |
| DiffClassifier.RawDiffTypePriority | coco_agent/services/git.py:72-78 | the same priority before tolerance |
| DiffClassifier.ToleratedValue | coco_agent/services/git.py:79-83 | tolerance keeps exactly the value |
| DiffClassifier.DiffTypeFailure | coco_agent/services/git.py:71-83 | the first failed flag read gives None when tolerated and is raised otherwise |
| DiffClassifier.StripUnchanged | coco_agent/services/git.py:61 | `strip()` leaves text without surrounding whitespace alone |
| DiffClassifier.ShaMessageTolerated | coco_agent/services/git.py:61 | any `SHA <x>could not be <y>` message, with no newline in `x`, is tolerated |
| DiffClassifier.ShaResolvedTolerated | tests/test_git.py:117-125 | the unresolved-blob message of the size test is tolerated |
| DiffClassifier.ShaNoCaptionTolerated | tests/test_git.py:127-132 | the message without a SHA caption is tolerated |
| DiffClassifier.ShaFoundTolerated | tests/test_git.py:150-158 | the unresolved-object message of the type test is tolerated |
| DiffClassifier.ShameNotTolerated | tests/test_git.py:134-140 | `SHAme there's been an error` is not tolerated |
| DiffClassifier.SomethingElseNotTolerated | tests/test_git.py:160-164 | `Something else` is not tolerated |
| DiffClassifier.SizeOfUnresolvedNewFile | tests/test_git.py:117-132 | a new file whose new blob is unresolved has no size |
| DiffClassifier.TypeOfFailedDeletedFlag | tests/test_git.py:160-164 | an untolerated failure of the deleted flag is raised |
| Repository.FindRemote | coco_agent/services/git.py:109-111 | the remote found is in the list and has the name asked for; none is found only when no remote has it |
| Repository.RepoNameFromRemote | coco_agent/services/git.py:107-115 | a name exactly when there is an origin remote whose URL ends with `.git` |
| Repository.RepoUrlFromRemote | coco_agent/services/git.py:135-140 | the remote's URL exactly when the remote exists |
| Repository.RepoNameSegment | coco_agent/services/git.py:115 | the name is slash-free, is the last `/`-segment of the text before the first `.git`, and that text holds no `.git` |
| Repository.HeadBeforeSuffix | coco_agent/services/git.py:115 | the text before the first `.git` of such a URL is followed by `.git` and holds none itself |
| Repository.NoOriginNoName | coco_agent/services/git.py:107-140 | without remotes or without an origin, neither helper finds anything |
| Repository.RepoNameOfUrl | coco_agent/services/git.py:115 | `front/name.git` with no earlier `.git` is named `name` |
| Repository.RepoNameLocalExample | tests/test_git.py:52-54 | `mylocaldir/.` has no repo name |
| Repository.RepoNameRemoteExample | tests/test_git.py:56-58 | `https://somewhere/remote.git` is named `remote` |
| Repository.FirstOccurrence | coco_agent/services/git.py:115 | the search stops at the first `.git` |
| Repository.SplitLastAfter | coco_agent/services/git.py:115 | the last `/`-segment of `front/back` is `back` |
| CommitWalk.CommitsIter | coco_agent/services/git.py:118-132 | the generator yields what the walk function specifies |
| CommitWalk.WalkResolved | coco_agent/services/git.py:120-122 | a revision that resolves is walked as is and the fallback is not used |
| CommitWalk.WalkFallsBack | coco_agent/services/git.py:123-127 | a failed lookup with a fallback yields the commits before the failure, then exactly the fallback's commits, walked in reverse with no further fallback |
| CommitWalk.WalkWithoutFallback | coco_agent/services/git.py:128-132 | a failed lookup without a fallback ends quietly |
| CommitWalk.WalkRaisesOnlyOtherErrors | coco_agent/services/git.py:118-132 | the walk raises only an error of one of the two walks other than the git command failure, so for well-formed walks never `GitCommandError` itself |
| CommitWalk.MasterFallsBackToMain | tests/test_git.py:82-94 | `master` unknown and `main` with one commit yields that commit |
| Extractor.InitCheck | coco_agent/services/git.py:158-163 | each of the two validation errors, and success, as an if-and-only-if |
| Extractor.GitRepoExtractor.constructor | coco_agent/services/git.py:144-178 | the fields: customer and source from the sensor if there is one, else from the arguments, and the sensor id derived from them |
| Extractor.GitRepoExtractor.GenerateRepoIdFromRemoteName | coco_agent/services/git.py:180-184 | the id comes from the remote's name and does not depend on the forced name |
| Extractor.DiffsByPathKeys | coco_agent/services/git.py:194-198 | the map's keys are exactly the diffs' old paths, each mapped to a diff with that path |
| Extractor.DiffsByPathLastWins | coco_agent/services/git.py:194-198 | the last diff with a given old path wins |
| Extractor.DiffRecordJoins | coco_agent/services/git.py:209-225 | a diff record raises the size's error, then the type's; otherwise it holds the stats, identifiers, paths, size and one-letter type |
| Extractor.Chosen | coco_agent/services/git.py:202-206 | the chosen entries are no more than the entries |
| Extractor.CollectYieldsChosen | coco_agent/services/git.py:202-227 | the generator yields the values of the chosen entries in order and raises at the first failing one |
| Extractor.CollectNext | coco_agent/services/git.py:202-227 | one step of the generator: it skips, yields or raises |
| Extractor.Matched | coco_agent/services/git.py:203-206 | the matched entries are exactly the entries whose looked-up path has a diff |
| Extractor.MatchedAppend | coco_agent/services/git.py:203-206 | matching distributes over appended statistics entries, so the matched entries keep statistics order |
| Extractor.ChosenAreMatched | coco_agent/services/git.py:203-206 | the join chooses exactly the matched entries |
| Extractor.DiffStreamIsJoin | coco_agent/services/git.py:202-227 | the join yields the records of the matched entries in statistics order; if it raises, it is at the first failing matched entry |
| Extractor.GitRepoExtractor.LoadCommitDiffs | coco_agent/services/git.py:186-227 | the generator yields what the join specifies, after reading the diff and the statistics |
| Extractor.GitRepoExtractor.JoinStats | coco_agent/services/git.py:202-227 | the loop yields what the generator function specifies |
| Extractor.CommitRecordFields | coco_agent/services/git.py:238-261 | a commit record raises the diffs' error, then the attributes'; otherwise it holds the commit id, the repo id, the sensor, all its diff records and its parents' ids |
| Extractor.CommitStreamNext | coco_agent/services/git.py:232-268 | one step of the processing loop: it yields, skips or raises |
| Extractor.GoodRecords | coco_agent/services/git.py:262-266 | there are no more good records than commits |
| Extractor.IgnoreErrorsDropsFailures | coco_agent/services/git.py:262-266 | with ignore_errors, exactly the failing commits are dropped, in walk order, and the walk's ending is kept |
| Extractor.ErrorsPropagate | coco_agent/services/git.py:262-268 | without ignore_errors, the records before the first failing commit are yielded, then its error is raised |
| Extractor.AllFailuresIgnored | coco_agent/services/git.py:262-266 | when every commit fails and errors are ignored, no commit record is produced |
| Extractor.NoGoodRecords | coco_agent/services/git.py:262-266 | no good records when every commit fails |
| Extractor.RecordsCarryRepoId | coco_agent/services/git.py:240-250 | every yielded commit record carries the repo id, the sensor, its own commit id and its diffs |
| Extractor.GitRepoExtractor.ExtractCommitsAndHistory | coco_agent/services/git.py:229-268 | the generator's output on the walked commits |
| Extractor.GitRepoExtractor.ProcessCommits | coco_agent/services/git.py:232-268 | the processing loop yields what the commit-stream function specifies |
| Extractor.GitRepoExtractor.ProcessStep | coco_agent/services/git.py:236-268 | one turn of the loop keeps the loop invariant, or raises the stream's error |
| Extractor.GitRepoExtractor.ProcessCommit | coco_agent/services/git.py:237-261 | the body builds the specified commit record |
| Extractor.GitRepoExtractor.Run | coco_agent/services/git.py:270-316 | on an extractor whose construction passed its checks, `__call__` emits what the run function specifies, and a completed run ends with a repo record that carries an id |
| Extractor.GitRepoExtractor.EmitRecords | coco_agent/services/git.py:295-316 | the commit records, then the repo record when the walk completes; that record carries the id it was given |
| Extractor.TagCommits | coco_agent/services/git.py:295-302 | the loop tags each commit record, in order |
| Extractor.CommitItems | coco_agent/services/git.py:295-302 | each commit record is emitted with the `git_commits` tag, in order |
| Extractor.RunEndsWithOneRepo | coco_agent/services/git.py:295-316 | a completed run emits commit records only, then exactly one repo record, last |
| Extractor.RunFailureEmitsNoRepo | coco_agent/services/git.py:270-302 | a run that raises has emitted commit records only |
| Extractor.RunRepoRecord | coco_agent/services/git.py:281-316 | the repo record: the forced name, else the remote's; the run's repo id; the sensor; the explicit link URL, else the origin's when asked for |
| Extractor.RunWithoutName | coco_agent/services/git.py:281-283 | without a forced or remote name the run raises "Could not infer repo name from remote" before emitting anything |
| Extractor.RunStampsRepoId | coco_agent/services/git.py:158-163 | with a given repo id or autogeneration on, as construction demands, every emitted commit and repo record carries a repo id |
| Extractor.AutogeneratedIdUsesRemoteName | coco_agent/services/git.py:180-289 | the autogenerated id comes from the remote's name even when a name is forced, and every commit record carries it |
| Ingestion.PartitionOutcome | coco_agent/services/git.py:340-349 | the split succeeds exactly when every type is known and keeps every item; otherwise it raises "Unexpected item type" for the first unknown type |
| Ingestion.PartitionCommitItems | coco_agent/services/git.py:340-347 | the commit items of a run are collected in order |
| Ingestion.PartitionFinishedRun | coco_agent/services/git.py:340-352 | a completed run is split into its commit records and its one repo record |
| Ingestion.FinishedRunItems | coco_agent/services/git.py:295-316 | a completed run's items are its tagged commit records followed by the repo record |
| Ingestion.EmittedWellTagged | coco_agent/services/git.py:302-316 | every emitted item's payload matches its tag |
| Ingestion.PartitionRaisesEarly | coco_agent/services/git.py:348-349 | once a prefix raises, the whole split raises the same error |
| Ingestion.PartitionItems | coco_agent/services/git.py:340-349 | the loop computes the specified split |
| Ingestion.InsertMultiset | coco_agent/services/git.py:355 | insertion adds exactly the inserted record |
| Ingestion.InsertSorted | coco_agent/services/git.py:355 | insertion keeps the order by date |
| Ingestion.InsertWithDate | coco_agent/services/git.py:355 | the inserted record goes behind every record that has its date |
| Ingestion.WithDateAppend | coco_agent/services/git.py:355 | appending a record extends the records of its date |
| Ingestion.SortByDateCorrect | coco_agent/services/git.py:355 | the sort orders by authored date, is a permutation, and is stable |
| Ingestion.SortByDateSorted | coco_agent/services/git.py:355 | the sort orders by authored date |
| Ingestion.SortByDateMultiset | coco_agent/services/git.py:355 | the sort is a permutation |
| Ingestion.SortByDateStable | coco_agent/services/git.py:355 | records of equal date keep their order |
| Ingestion.FlattenedCorrect | coco_agent/services/git.py:356-359 | flattening raises KeyError exactly when a commit has no diffs; otherwise every commit is kept in order without its diffs, and the diff list holds exactly their diffs (order and multiplicity: Ingestion.FlattenedOrder) |
| Ingestion.AllDiffsAppend | coco_agent/services/git.py:356-359 | the front-to-back concatenation of diff lists distributes over appending commits |
| Ingestion.FlattenedOrder | coco_agent/services/git.py:356-359 | the flattened diff list is the commits' diff lists concatenated in commit order, with order and multiplicity kept |
| Ingestion.FlattenedRaisesEarly | coco_agent/services/git.py:357-359 | once a prefix raises, the whole flattening raises |
| Ingestion.FlattenDiffs | coco_agent/services/git.py:356-359 | the loop computes the specified flattening |
| Ingestion.StoreRun | coco_agent/services/git.py:340-363 | the loop computes the specified store calls |
| Ingestion.IngestAndStoreRepo | coco_agent/services/git.py:319-367 | ingestion builds the extractor with an autogenerated id and the remote link, runs it and stores the result |
| Ingestion.StoreFinishedRun | coco_agent/services/git.py:340-363 | a completed run is stored as three calls (repos, then the sorted commits without diffs, then their diffs), all under the repo record's id |
| Ingestion.SortedKeepDiffs | coco_agent/services/git.py:355-358 | sorting keeps every commit's diffs |
| Ingestion.StoreFailedRun | coco_agent/services/git.py:341-343 | a run that raises stores nothing and raises its error |
| Ingestion.FallbackBranch | coco_agent/services/git.py:397-399 | the fallback is `main` exactly when the branch is `master` and the flag is set |
| Ingestion.WriteFiles | coco_agent/services/git.py:384-389 | the writer writes one file per store call, in order, until a file name cannot be built |
| Ingestion.IngestRepoToJsonl | coco_agent/services/git.py:370-403 | output goes to `./out` unless a directory is given, with the fallback rule applied |
| Ingestion.JsonlNameParses | coco_agent/services/git.py:384-389 | every written file name parses back into the customer, source, repo id, record type and `jsonl` |
| Ingestion.RecordTypePlain | coco_agent/services/git.py:17-19 | the record types hold no `__` and do not start with `_` |
| LineClassifier.TokenMarks | coco_agent/services/git/content.py:31-44 | `d` exactly for a true comment, `s` exactly for a string, `c` exactly for any other token that is not white text |
| LineClassifier.LinePartsLoop | coco_agent/services/git/content.py:16-54 | the loop yields what the line-parts function specifies |
| LineClassifier.UnionMarksMembers | coco_agent/services/git/content.py:29-44 | a line holds a mark exactly when one of its tokens adds it |
| LineClassifier.UnionAppend | coco_agent/services/git/content.py:29-51 | the marks of a longer line are the old marks plus those of the new token |
| LineClassifier.GroupsInsideLine | coco_agent/services/git/content.py:45-51 | tokens that end no line only add to the current marks |
| LineClassifier.LineGroup | coco_agent/services/git/content.py:45-49 | a newline-ended line yields one group, the marks of all its tokens, then the marks reset |
| LineClassifier.TrailingGroup | coco_agent/services/git/content.py:52-54 | the text after the last newline yields a group only if it holds a mark, so no tokens yield no groups |
| LineClassifier.GroupCount | coco_agent/services/git/content.py:45-54 | one group per newline token, plus at most one trailing group |
| LineClassifier.NewlineCountFirst | coco_agent/services/git/content.py:45 | counting newline tokens from the front |
| LineClassifier.ClassifyLine | coco_agent/services/git/content.py:110-113 | a line with `c` is code, else with `s` string, else with `d` documentation, else empty |
| LineClassifier.TallyTotal | coco_agent/services/git/content.py:104-114 | each group increments exactly one count, so the counts add up to the number of groups |
| LineClassifier.TallyCounts | coco_agent/services/git/content.py:104-114 | each count is the number of groups of its category |
| LineClassifier.TallyLoop | coco_agent/services/git/content.py:104-114 | the loop computes the specified tally |
| LineClassifier.GetLines | coco_agent/services/git/content.py:80-122 | `get_lines` returns what the counting function specifies |
| LineClassifier.NoLexerNoCounts | coco_agent/services/git/content.py:91-95 | None exactly when there is no lexer |
| LineClassifier.LinesTotal | coco_agent/services/git/content.py:104-122 | the four counts add up to the number of lines yielded, which is within one of the number of newline tokens |
| LineClassifier.TallyExample | coco_agent/services/git/content.py:104-114 | a code line with a trailing comment, a comment line and a blank line count as one each of code, documentation and empty |
| Transfer.BucketNameFromCustomerId | coco_agent/remote/transfer.py:11-14 | `cc-upload-` followed by the lowered encoded id, with no upper-case letter |
| Transfer.SubpathPrefix | coco_agent/remote/transfer.py:23 | empty without a subpath; otherwise it ends with `/` |
| Transfer.SubpathPrefixStrips | coco_agent/remote/transfer.py:23 | the prefix is the subpath between its leading and trailing slashes, plus one `/` |
| Transfer.StripBounds | coco_agent/remote/transfer.py:23 | where `strip("/")` starts and ends |
| Transfer.StrippedShape | coco_agent/remote/transfer.py:23 | the stripped subpath neither starts nor ends with a slash |
| Transfer.SubpathPrefixIdempotent | coco_agent/remote/transfer.py:23 | normalising a prefix again changes nothing |
| Transfer.RegularFiles | coco_agent/remote/transfer.py:29 | exactly the regular files of the listing, as a set |
| Transfer.RegularFilesAppend | coco_agent/remote/transfer.py:29 | the regular files of two listings in a row are those of the first, then those of the second: listing order is kept |
| Transfer.RegularFilesDistinct | coco_agent/remote/transfer.py:29 | a listing that names each entry once gives each regular file once |
| Transfer.UploadPlan | coco_agent/remote/transfer.py:20-22 | raises "Specify bucket name explicitly, or provide a customer id" exactly when neither is given |
| Transfer.UploadPlanWrites | coco_agent/remote/transfer.py:22-40 | write k is the k-th regular file, to the given bucket (else the customer's), under the prefix and its name |
| Transfer.UploadPlanOnce | coco_agent/remote/transfer.py:29-40 | when the listing names each entry once, no two writes share a name in the bucket |
| Transfer.UnslashedPrefix | coco_agent/remote/transfer.py:23 | a subpath without leading or trailing slashes gets one `/` appended |
| Transfer.SingleFile | coco_agent/remote/transfer.py:29-40 | a one-file listing gives one write |
| Transfer.UploadExample | tests/test_transfer.py:25-40 | bucket `my-bucket`, subpath `data` and file `testfile.json` give one write, named `data/testfile.json` |
| Transfer.UploadDirToGcs | coco_agent/remote/transfer.py:17-42 | the loop issues the specified writes |
| Text.LStrip | coco_agent/services/git.py:61 | Python's `lstrip()`: the longest suffix with no leading whitespace |
| Text.RStrip | coco_agent/services/git.py:61 | Python's `rstrip()`: the longest prefix with no trailing whitespace |
| Text.LStripChar | coco_agent/remote/transfer.py:23 | `lstrip("/")`: the longest suffix that does not start with `/` |
| Text.RStripChar | coco_agent/remote/transfer.py:23 | `rstrip("/")`: the longest prefix that does not end with `/` |
| Text.Lower | coco_agent/remote/transfer.py:13 | character-wise lowering, same length |
| Text.SplitFirst | coco_agent/services/git.py:115 | `split(sep)[0]`: the text before the first separator, or all of it |
| Text.SplitLast | coco_agent/services/git.py:115 | `split(c)[-1]`: the text after the last `c`, or all of it |

## Left out

- The `tm_id` identifier functions are parameters, because their module is not part of this model. The tests' expected identifier literals therefore cannot be stated.
- Cloning and opening the repository, the temporary directory, the URL-scheme test and `check_repo` are left out. They are the `outcome` parameter and the repository's `check` outcome.
- The GitPython object model is given as data. Each lazily read attribute is the outcome of reading it.
- Logging and progress messages are left out.
- `srsly.write_jsonl` and creating the output directory are left out. The JSON-lines store returns the files it would write.
- The storage client, the credentials file and the directory listing are left out. The listing is a parameter, and the writes are returned as a plan.
- The `store_fn` of `ingest_and_store_repo` is modelled as returning its calls. Failures of an arbitrary store function are not modelled.
- Extractor.GitRepoExtractor.Run: `use_non_native_repo_db` only selects a storage backend, so it is kept as a field and has no effect.
- Pygments lexing, encoding detection and XML dialect detection are parameters: the lexer with its tokens and white-text test, and the dialect.
- `_delined_tokens`, `_pythonized_comments` and the monkey-patch are left out.
- `get_content` and `is_binary` are left out, because they only run git.
- The per-line token lists of `_line_parts_patched` are left out, because counting never reads them.
- LineClassifier.TokenMarks: `Comment.Preproc` and `Comment.PreprocFile` are their own token kinds, not sub-kinds of a comment.
- LineClassifier.Groups: yields a trailing group when its mark set is non-empty, which is the source's `len(line_marks) >= 1`.
- Text.Lower: lowers ASCII letters only. Python's `lower()` also lowers other scripts.
- Text.IsSpace: covers Python's whitespace characters by code point. There is no Unicode normalisation.
- Ingestion.Store: requires that commit and repo items carry a record of their type. The extractor's own output always does (Ingestion.EmittedWellTagged).
- Ingestion.Partition: requires the same well-tagging.
- CommitWalk.Walked: a walk may be given as `WalkFailed` carrying the `GitCommandError` class, which the model propagates while the source would catch it. Such a walk is not well-formed (Repository.WellFormedEnd), since a failing git command is reported as `GitCommandError`.
- DiffClassifier.FirstFailure: states only that the error reported is one of the flag reads' errors. Which one is stated by DiffClassifier.DiffTypeFailure.
- Mutating the statistics dict in place and deleting `diffs` from each commit dict are modelled as new values. A caller holding a reference to the old dict would see the change; the model does not capture that aliasing.
- Tests that do not match the code are not modelled:
  - tests/test_git.py:142-147 and :166-171 expect a gitdb `BadObject` to be tolerated, but only a matching `ValueError` is;
  - tests/test_git.py:298-313 uses an absent `update_repo`;
  - tests/test_transfer.py:44-85 expects subdirectory files, but the listing is not recursive;
  - tests/test_transfer.py:88-134 uses an absent `upload_dir_to_cc_gcs`.
- The command-line interface, the logging setup and `setup.py` are left out.
