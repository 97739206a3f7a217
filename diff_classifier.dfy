/**
 * Diff classification (coco_agent/services/git.py, _diff_size and _diff_type). A diff's blobs and
 * flags are read lazily from the object database and any of those reads may raise; a ValueError
 * reporting an unresolvable SHA makes the classifier give up with None, anything else propagates.
 */
module DiffClassifier {
  import opened Results
  import opened Text

  /** A blob whose size is read from the object database when asked for. */
  datatype Blob = Blob(size: Result<int>)

  /** One file-level diff. Each attribute is the outcome of reading it; a repeated read gives the
      same outcome. A path is None for the missing side of an addition or a deletion. */
  datatype Diff = Diff(aPath: Option<string>, bPath: Option<string>,
                       aBlob: Result<Option<Blob>>, bBlob: Result<Option<Blob>>,
                       newFile: Result<bool>, deletedFile: Result<bool>, renamed: Result<bool>)

  datatype ChangeType = Added | Deleted | Modified | Renamed

  /** The one-letter code stored in a diff record. */
  function Code(t: ChangeType): (c: string)
    ensures |c| == 1
    ensures c == "R" <==> t == Renamed
    ensures c == "D" <==> t == Deleted
    ensures c == "A" <==> t == Added
    ensures c == "M" <==> t == Modified
  {
    match t
    case Added => "A"
    case Deleted => "D"
    case Modified => "M"
    case Renamed => "R"
  }

  lemma CodeInjective(s: ChangeType, t: ChangeType)
    ensures Code(s) == Code(t) <==> s == t
  {}

  const AttributeError := OtherError("AttributeError")

  /** `blob.size`, where reading an attribute of None raises AttributeError. */
  function SizeOf(blob: Option<Blob>): (r: Result<int>)
    ensures blob.None? ==> r == Err(AttributeError)
    ensures blob.Some? ==> r == blob.value.size
  {
    match blob
    case None => Err(AttributeError)
    case Some(b) => b.size
  }

  // ----- The tolerated failure -----

  /** `re.match(r"^SHA .*\s*could not be ", text)`: `SHA ` at the start, then `could not be ` after
      a run of non-newline characters followed by whitespace, i.e. a stretch whose text, once its
      trailing whitespace is dropped, holds no newline. */
  predicate ShaPattern(t: string) {
    && |t| >= 4 && t[..4] == "SHA "
    && exists k | 4 <= k <= |t| - 13 :: OccursAt(t, "could not be ", k) && '\n' !in RStrip(t[4..k])
  }

  /** The error both classifiers swallow: a ValueError whose stripped text matches the pattern. */
  predicate Tolerated(e: Error) {
    e.ValueError? && ShaPattern(Strip(e.msg))
  }

  /** The `try`/`except ValueError` around each classifier: a value, None for a tolerated error,
      or the error raised again. */
  function Tolerate<T>(r: Result<T>): (t: Result<Option<T>>)
    ensures r.Ok? <==> t.Ok? && t.value.Some?
    ensures r.Ok? ==> t.value.value == r.value
    ensures t == Ok(None) <==> r.Err? && Tolerated(r.error)
    ensures t.Err? <==> r.Err? && !Tolerated(r.error)
    ensures t.Err? ==> t.error == r.error
  {
    match r
    case Ok(v) => Ok(Some(v))
    case Err(e) => if Tolerated(e) then Ok(None) else Err(e)
  }

  // ----- _diff_size -----

  /** A deletion: the new side has no blob and the file is flagged deleted. */
  predicate IsDeletion(d: Diff) {
    d.bBlob == Ok(None) && d.deletedFile == Ok(true)
  }

  /** An addition: not a deletion, the old side has no blob and the file is flagged new. */
  predicate IsAddition(d: Diff) {
    !IsDeletion(d) && d.aBlob == Ok(None) && d.newFile == Ok(true)
  }

  /** The body of _diff_size, reads in the order the source makes them. `b_blob is None` is read
      first and `deleted_file` only when it holds; `a_blob is None`, then `new_file` likewise. */
  function RawDiffSize(d: Diff): Result<int> {
    var bBlob :- d.bBlob;
    var deleted :- if bBlob.None? then d.deletedFile else Ok(false);
    if deleted then
      var aBlob :- d.aBlob;
      var a :- SizeOf(aBlob);
      Ok(a * -1)
    else
      var aBlob :- d.aBlob;
      var added :- if aBlob.None? then d.newFile else Ok(false);
      if added then
        SizeOf(bBlob)
      else
        var a :- SizeOf(aBlob);
        var b :- SizeOf(bBlob);
        Ok(a - b)
  }

  /** _diff_size. */
  function DiffSize(d: Diff): Result<Option<int>> {
    Tolerate(RawDiffSize(d))
  }

  /** A blob that is there and whose size can be read. */
  predicate Sized(blob: Result<Option<Blob>>) {
    blob.Ok? && blob.value.Some? && blob.value.value.size.Ok?
  }

  function SizeValue(blob: Result<Option<Blob>>): int
    requires Sized(blob)
  {
    blob.value.value.size.value
  }

  /** A deletion is sized by the old blob, negated. */
  lemma DiffSizeOfDeletion(d: Diff)
    requires IsDeletion(d) && Sized(d.aBlob)
    ensures DiffSize(d) == Ok(Some(-SizeValue(d.aBlob)))
  {}

  /** An addition is sized by the new blob. */
  lemma DiffSizeOfAddition(d: Diff)
    requires IsAddition(d) && Sized(d.bBlob)
    ensures DiffSize(d) == Ok(Some(SizeValue(d.bBlob)))
  {}

  /** Anything else is sized old minus new, as written. */
  lemma DiffSizeOfOther(d: Diff)
    requires !IsDeletion(d) && !IsAddition(d) && Sized(d.aBlob) && Sized(d.bBlob)
    requires d.deletedFile.Ok? && d.newFile.Ok?
    ensures DiffSize(d) == Ok(Some(SizeValue(d.aBlob) - SizeValue(d.bBlob)))
  {}

  /** Every error _diff_size raises comes from one of the reads, or from reading the size of a
      missing blob. */
  lemma DiffSizeErrors(d: Diff)
    requires DiffSize(d).Err?
    ensures var e := DiffSize(d).error;
            !Tolerated(e)
            && (e == AttributeError
                || (d.bBlob.Err? && e == d.bBlob.error) || (d.aBlob.Err? && e == d.aBlob.error)
                || (d.deletedFile.Err? && e == d.deletedFile.error) || (d.newFile.Err? && e == d.newFile.error)
                || (d.aBlob.Ok? && d.aBlob.value.Some? && d.aBlob.value.value.size == Err(e))
                || (d.bBlob.Ok? && d.bBlob.value.Some? && d.bBlob.value.value.size == Err(e)))
  {}

  /** Deleting a blob and adding the same blob give opposite size deltas. */
  lemma DeletionOppositeOfAddition(del: Diff, add: Diff, blob: Blob, n: int)
    requires blob.size == Ok(n)
    requires del.bBlob == Ok(None) && del.deletedFile == Ok(true) && del.aBlob == Ok(Some(blob))
    requires add.aBlob == Ok(None) && add.newFile == Ok(true) && add.bBlob == Ok(Some(blob))
    ensures DiffSize(del) == Ok(Some(-n)) && DiffSize(add) == Ok(Some(n))
  {
    assert !IsDeletion(add);
  }

  /** For a modification the delta is old size minus new size, so the same change the other way
      round has the opposite delta. */
  lemma ModificationAntisymmetric(d: Diff, e: Diff, m: int, n: int)
    requires d.aBlob == Ok(Some(Blob(Ok(m)))) && d.bBlob == Ok(Some(Blob(Ok(n))))
    requires e.aBlob == d.bBlob && e.bBlob == d.aBlob
    requires d.deletedFile.Ok? && d.newFile.Ok? && e.deletedFile.Ok? && e.newFile.Ok?
    ensures DiffSize(d) == Ok(Some(m - n)) && DiffSize(e) == Ok(Some(n - m))
  {
    DiffSizeOfOther(d);
    DiffSizeOfOther(e);
  }

  /** A missing old blob outside a flagged addition or deletion is not tolerated: reading its size
      raises AttributeError. */
  lemma MissingBlobPropagates(d: Diff)
    requires d.bBlob.Ok? && d.bBlob.value.Some?
    requires d.aBlob == Ok(None) && d.newFile == Ok(false)
    ensures DiffSize(d) == Err(AttributeError)
  {}

  /** Exceptions of other classes are never swallowed, whatever their text. */
  lemma OtherErrorsPropagate(d: Diff, kind: string)
    requires d.bBlob == Err(OtherError(kind))
    ensures DiffSize(d) == Err(OtherError(kind))
  {}

  // ----- _diff_type -----

  /** The error of the first flag read before the decision, reading `flags` in order and stopping
      at the first one that is set. */
  function FirstFailure(flags: seq<Result<bool>>): (r: Option<Error>)
    ensures r.Some? ==> exists i :: 0 <= i < |flags| && flags[i] == Err(r.value)
  {
    if flags == [] then None
    else if flags[0].Err? then Some(flags[0].error)
    else if flags[0].value then None
    else FirstFailure(flags[1..])
  }

  /** The body of _diff_type: renamed, then deleted, then new, else modified. */
  function RawDiffType(d: Diff): Result<ChangeType> {
    var renamed :- d.renamed;
    if renamed then Ok(Renamed)
    else
      var deleted :- d.deletedFile;
      if deleted then Ok(Deleted)
      else
        var added :- d.newFile;
        if added then Ok(Added) else Ok(Modified)
  }

  /** _diff_type. */
  function DiffType(d: Diff): Result<Option<ChangeType>> {
    Tolerate(RawDiffType(d))
  }

  /** The first set flag in the priority order decides the type. */
  lemma DiffTypePriority(d: Diff)
    ensures DiffType(d) == Ok(Some(Renamed)) <==> d.renamed == Ok(true)
    ensures DiffType(d) == Ok(Some(Deleted)) <==> d.renamed == Ok(false) && d.deletedFile == Ok(true)
    ensures DiffType(d) == Ok(Some(Added))
            <==> d.renamed == Ok(false) && d.deletedFile == Ok(false) && d.newFile == Ok(true)
    ensures DiffType(d) == Ok(Some(Modified))
            <==> d.renamed == Ok(false) && d.deletedFile == Ok(false) && d.newFile == Ok(false)
  {
    ToleratedValue(RawDiffType(d), Renamed);
    ToleratedValue(RawDiffType(d), Deleted);
    ToleratedValue(RawDiffType(d), Added);
    ToleratedValue(RawDiffType(d), Modified);
    RawDiffTypePriority(d);
  }

  lemma RawDiffTypePriority(d: Diff)
    ensures RawDiffType(d) == Ok(Renamed) <==> d.renamed == Ok(true)
    ensures RawDiffType(d) == Ok(Deleted) <==> d.renamed == Ok(false) && d.deletedFile == Ok(true)
    ensures RawDiffType(d) == Ok(Added)
            <==> d.renamed == Ok(false) && d.deletedFile == Ok(false) && d.newFile == Ok(true)
    ensures RawDiffType(d) == Ok(Modified)
            <==> d.renamed == Ok(false) && d.deletedFile == Ok(false) && d.newFile == Ok(false)
  {}

  /** Tolerating a result keeps exactly its value. */
  lemma ToleratedValue<T>(r: Result<T>, v: T)
    ensures Tolerate(r) == Ok(Some(v)) <==> r == Ok(v)
  {}

  /** A failed read before the decision is swallowed exactly when it is tolerated, and raised
      again otherwise. */
  lemma DiffTypeFailure(d: Diff)
    ensures var f := FirstFailure([d.renamed, d.deletedFile, d.newFile]);
            && (DiffType(d) == Ok(None) <==> f.Some? && Tolerated(f.value))
            && (DiffType(d).Err? <==> f.Some? && !Tolerated(f.value))
            && (DiffType(d).Err? ==> DiffType(d).error == f.value)
  {
    var flags := [d.renamed, d.deletedFile, d.newFile];
    var f := FirstFailure(flags);
    assert flags[1..] == [d.deletedFile, d.newFile] && flags[1..][1..] == [d.newFile];
    assert flags[1..][1..][1..] == [];
    var r := RawDiffType(d);
    if d.renamed.Err? || (d.renamed.Ok? && d.renamed.value) {
      assert f == (if d.renamed.Err? then Some(d.renamed.error) else None);
    } else if d.deletedFile.Err? || (d.deletedFile.Ok? && d.deletedFile.value) {
      assert f == FirstFailure(flags[1..]);
    } else {
      assert f == FirstFailure(flags[1..]);
      assert FirstFailure(flags[1..]) == FirstFailure(flags[1..][1..]);
    }
    assert r.Err? <==> f.Some?;
    assert r.Err? ==> r.error == f.value;
  }

  // ----- The messages of the source's tests -----

  /** Text without surrounding whitespace is left alone by strip(). */
  lemma StripUnchanged(s: string)
    requires |s| > 0 && !IsSpace(s[0]) && !IsSpace(s[|s| - 1])
    ensures Strip(s) == s
  {}

  /** A message of the form `SHA <x>could not be <y>` with no newline in `x` is tolerated. */
  lemma ShaMessageTolerated(x: string, y: string)
    requires '\n' !in x
    requires y != "" && !IsSpace(y[|y| - 1])
    ensures Tolerated(ValueError("SHA " + x + "could not be " + y))
  {
    var msg := "SHA " + x + "could not be " + y;
    assert msg[|msg| - 1] == y[|y| - 1];
    StripUnchanged(msg);
    var k := 4 + |x|;
    assert msg[..4] == "SHA ";
    assert msg[k..k + 13] == "could not be ";
    assert msg[4..k] == x;
    assert OccursAt(msg, "could not be ", k);
  }

  /** The unresolved-blob message of the size test. */
  lemma ShaResolvedTolerated()
    ensures Tolerated(ValueError("SHA " + "b'3f7910b7586a7160be9b3760c17e71090a4ec9cf' " + "could not be "
                                 + "resolved, git returned: b'3f7910b7586a7160be9b3760c17e71090a4ec9cf missing'"))
  {
    ShaMessageTolerated("b'3f7910b7586a7160be9b3760c17e71090a4ec9cf' ",
                        "resolved, git returned: b'3f7910b7586a7160be9b3760c17e71090a4ec9cf missing'");
  }

  /** The message without a SHA caption. */
  lemma ShaNoCaptionTolerated()
    ensures Tolerated(ValueError("SHA " + "" + "could not be " + "resolved, git returned: missing'"))
  {
    ShaMessageTolerated("", "resolved, git returned: missing'");
  }

  /** The unresolved-object message of the type test. */
  lemma ShaFoundTolerated()
    ensures Tolerated(ValueError("SHA " + "b'3f7910b7586a7160be9b3760c17e71090a4ec9cf' " + "could not be " + "found"))
  {
    ShaMessageTolerated("b'3f7910b7586a7160be9b3760c17e71090a4ec9cf' ", "found");
  }

  /** A message that does not start with `SHA ` is raised again. */
  lemma ShameNotTolerated(msg: string)
    requires msg == "SHAme there's been an error"
    ensures !Tolerated(ValueError(msg))
  {
    StripUnchanged(msg);
    assert msg[3] == 'm';
  }

  /** So is one that never says `could not be `. */
  lemma SomethingElseNotTolerated(msg: string)
    requires msg == "Something else"
    ensures !Tolerated(ValueError(msg))
  {
    StripUnchanged(msg);
    assert msg[0] == 'S' && msg[1] == 'o';
  }

  /** The size test: a new file whose new blob cannot be read for an unresolved SHA has no size. */
  lemma SizeOfUnresolvedNewFile(d: Diff, msg: string)
    requires d.aBlob == Ok(None) && d.newFile == Ok(true)
    requires d.bBlob == Err(ValueError(msg)) && Tolerated(ValueError(msg))
    ensures DiffSize(d) == Ok(None)
  {}

  /** The type test: a failed read of a later flag, with a message that is not tolerated, raises. */
  lemma TypeOfFailedDeletedFlag(d: Diff, msg: string)
    requires d.renamed == Ok(false) && d.deletedFile == Err(ValueError(msg))
    requires !Tolerated(ValueError(msg))
    ensures DiffType(d) == Err(ValueError(msg))
  {}
}
