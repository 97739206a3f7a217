/**
 * Export file naming (coco_agent/services/git.py, generate_git_export_file_name and
 * parse_git_export_file_name): `customer__source__repo__entity.suffix`, parsed back with the
 * anchored pattern `^(.+)__(.+)__(.+)__(.+)\.(.+)$`.
 */
module ExportNames {
  import opened Results
  import opened Text

  const Separator := "__"

  /** The five parts of an export file name, in the order the parser returns them. */
  datatype ExportName = ExportName(customerId: string, sourceId: string, repoId: string,
                                   entityName: string, fileSuffix: string)

  const MissingParts := ValueError("One or more file name parts missing")

  function UnexpectedStructure(fileName: string): Error {
    ValueError("Unexpected export file name structure: " + fileName)
  }

  function FileName(n: ExportName): string {
    n.customerId + Separator + n.sourceId + Separator + n.repoId + Separator
    + n.entityName + "." + n.fileSuffix
  }

  /** generate_git_export_file_name: every part must be truthy. */
  function Generate(fileSuffix: Option<string>, customerId: Option<string>, sourceId: Option<string>,
                    repoId: Option<string>, entityName: Option<string>): (r: Result<string>)
    ensures r.Err? <==> !(Truthy(fileSuffix) && Truthy(customerId) && Truthy(sourceId)
                          && Truthy(repoId) && Truthy(entityName))
    ensures r.Err? ==> r.error == MissingParts
    ensures r.Ok? ==> r.value == FileName(ExportName(customerId.value, sourceId.value, repoId.value,
                                                     entityName.value, fileSuffix.value))
  {
    if !(Truthy(fileSuffix) && Truthy(customerId) && Truthy(sourceId) && Truthy(repoId) && Truthy(entityName)) then
      Err(MissingParts)
    else
      Ok(FileName(ExportName(customerId.value, sourceId.value, repoId.value, entityName.value, fileSuffix.value)))
  }

  // ----- The pattern, as Python's backtracking matcher runs it -----
  //
  // `.` never matches a newline and `$` matches at the end or before one final newline, so a
  // match exists only for a newline-free body (the name without one trailing newline). Every
  // `(.+)` is greedy: the matcher tries the largest end position of each group first and keeps the
  // first assignment for which the rest of the pattern matches.

  /** Two consecutive underscores at `j`. */
  predicate SeparatorAt(t: string, j: int) {
    0 <= j && j + 1 < |t| && t[j] == '_' && t[j + 1] == '_'
  }

  /** The groups separated by `__` and, before the last one, a single `.`. */
  function Joined(parts: seq<string>): (r: string)
    requires |parts| >= 2
    ensures |parts[0]| <= |r| && r[..|parts[0]|] == parts[0]
  {
    if |parts| == 2 then parts[0] + "." + parts[1] else parts[0] + Separator + Joined(parts[1..])
  }

  lemma JoinedCons(head: string, rest: seq<string>)
    requires |rest| >= 2
    ensures Joined([head] + rest) == head + Separator + Joined(rest)
  {
    assert ([head] + rest)[1..] == rest;
  }

  /** `(.+)\.(.+)$` on `t`, trying the dot at `j`, then further left. */
  function DotSplit(t: string, j: nat): (r: Option<seq<string>>)
    requires j + 2 <= |t|
    ensures r.None? <==> forall d :: 1 <= d <= j ==> t[d] != '.'
    ensures r.Some? ==> |r.value| == 2 && Joined(r.value) == t && r.value[0] != "" && r.value[1] != ""
  {
    if j == 0 then None
    else if t[j] == '.' then
      assert t[..j] + "." + t[j + 1..] == t;
      Some([t[..j], t[j + 1..]])
    else DotSplit(t, j - 1)
  }

  /** The groups of `(.+)` followed by `k` more `__(.+)` groups and `\.(.+)$`, matched against all of `t`. */
  function Groups(k: nat, t: string): (r: Option<seq<string>>)
    ensures r.Some? ==> |r.value| == k + 2 && Joined(r.value) == t
    ensures r.Some? ==> forall i :: 0 <= i < |r.value| ==> r.value[i] != ""
    decreases k, |t| + 1
  {
    if |t| < 2 then None
    else if k == 0 then DotSplit(t, |t| - 2)
    else SepSearch(k, t, |t| - 2)
  }

  /** A successful split of `t` at a separator starting at `d`. */
  predicate Hit(k: nat, t: string, d: int)
    requires k >= 1
    decreases k - 1, |t| + 2
  {
    1 <= d && SeparatorAt(t, d) && Groups(k - 1, t[d + 2..]).Some?
  }

  /** The greedy first group: the separator position is tried from `j` down to 1. */
  function SepSearch(k: nat, t: string, j: nat): (r: Option<seq<string>>)
    requires k >= 1 && j + 2 <= |t|
    ensures r.Some? ==> |r.value| == k + 2 && Joined(r.value) == t
    ensures r.Some? ==> forall i :: 0 <= i < |r.value| ==> r.value[i] != ""
    decreases k, j
  {
    if j == 0 then None
    else if Hit(k, t, j) then
      var rest := Groups(k - 1, t[j + 2..]).value;
      JoinedCons(t[..j], rest);
      assert t[..j] + Separator + t[j + 2..] == t;
      Some([t[..j]] + rest)
    else SepSearch(k, t, j - 1)
  }

  /** The dot search splits at the right-most dot. */
  lemma {:induction false} DotSplitFinds(t: string, j: nat, d: nat)
    requires j + 2 <= |t| && 1 <= d <= j && t[d] == '.'
    requires forall d' :: d < d' <= j ==> t[d'] != '.'
    ensures DotSplit(t, j) == Some([t[..d], t[d + 1..]])
    decreases j
  {
    if j > d {
      DotSplitFinds(t, j - 1, d);
    }
  }

  /** The search returns the split at the right-most hit. */
  lemma {:induction false} SepSearchFinds(k: nat, t: string, j: nat, d: nat)
    requires k >= 1 && j + 2 <= |t| && 1 <= d <= j && Hit(k, t, d)
    requires forall d' :: d < d' <= j ==> !Hit(k, t, d')
    ensures SepSearch(k, t, j) == Some([t[..d]] + Groups(k - 1, t[d + 2..]).value)
    decreases j
  {
    if j > d {
      assert !Hit(k, t, j);
      SepSearchFinds(k, t, j - 1, d);
    }
  }

  /** Without a hit the search fails. */
  lemma {:induction false} SepSearchNone(k: nat, t: string, j: nat)
    requires k >= 1 && j + 2 <= |t|
    requires forall d :: 1 <= d <= j ==> !Hit(k, t, d)
    ensures SepSearch(k, t, j) == None
    decreases j
  {
    if j > 0 {
      assert !Hit(k, t, j);
      SepSearchNone(k, t, j - 1);
    }
  }

  /** A join of five parts is the export file name of those parts. */
  lemma JoinedFive(parts: seq<string>)
    requires |parts| == 5
    ensures Joined(parts) == FileName(ExportName(parts[0], parts[1], parts[2], parts[3], parts[4]))
  {
    var p1, p2, p3 := parts[1..], parts[2..], parts[3..];
    assert p1[1..] == p2 && p2[1..] == p3;
    var a, b, c, d, e := parts[0], parts[1], parts[2], parts[3], parts[4];
    var j3 := d + "." + e;
    assert Joined(p3) == j3;
    var j2 := c + Separator + j3;
    assert Joined(p2) == j2;
    var j1 := b + Separator + j2;
    assert Joined(p1) == j1;
    assert Joined(parts) == a + Separator + j1;
    FiveAssoc(a, b, c, d, e);
  }

  lemma FiveAssoc(a: string, b: string, c: string, d: string, e: string)
    ensures a + Separator + (b + Separator + (c + Separator + (d + "." + e)))
            == a + Separator + b + Separator + c + Separator + d + "." + e
  {}

  /** parse_git_export_file_name. */
  function Parse(fileName: string): (r: Result<ExportName>)
    ensures r.Err? ==> r.error == UnexpectedStructure(fileName)
    ensures r.Ok? ==> FileName(r.value) == fileName || FileName(r.value) + "\n" == fileName
    ensures r.Ok? ==> r.value.customerId != "" && r.value.sourceId != "" && r.value.repoId != ""
                      && r.value.entityName != "" && r.value.fileSuffix != ""
  {
    var body := if |fileName| > 0 && fileName[|fileName| - 1] == '\n' then fileName[..|fileName| - 1] else fileName;
    assert body == fileName || body + "\n" == fileName;
    if '\n' in body then Err(UnexpectedStructure(fileName))
    else
      match Groups(3, body)
      case None => Err(UnexpectedStructure(fileName))
      case Some(g) =>
        var n := ExportName(g[0], g[1], g[2], g[3], g[4]);
        JoinedFive(g);
        Ok(n)
  }

  // ----- Round trip -----

  /** A part that the pattern cannot split: non-empty, no newline, no `__`. */
  predicate Plain(p: string) {
    p != "" && '\n' !in p && forall i | 0 <= i < |p| :: !SeparatorAt(p, i)
  }

  /** Parts that survive a round trip: plain, the inner ones not starting with `_`, the last without a dot. */
  predicate Splittable(parts: seq<string>) {
    && |parts| >= 2
    && (forall i :: 0 <= i < |parts| ==> Plain(parts[i]))
    && (forall i :: 1 <= i < |parts| - 1 ==> parts[i][0] != '_')
    && '.' !in parts[|parts| - 1]
  }

  predicate IsSuffix(u: string, w: string) {
    |u| <= |w| && u == w[|w| - |u|..]
  }

  /** The last two parts, joined by the dot, hold no separator (even behind a leading `_`). */
  lemma NoSeparatorInLast(parts: seq<string>, pre: string, e: int)
    requires Splittable(parts) && |parts| == 2
    requires pre == "" || (pre == "_" && parts[0][0] != '_')
    ensures !SeparatorAt(pre + Joined(parts), e)
  {
    var a, x := parts[0], parts[1];
    var w := pre + Joined(parts);
    var P := |pre|;
    assert w == pre + a + "." + x;
    assert |w| == P + |a| + 1 + |x|;
    if 0 <= e && e + 1 < |w| {
      if e < P {
        assert w[e + 1] == a[0];
      } else if e + 1 < P + |a| {
        assert w[e] == a[e - P] && w[e + 1] == a[e + 1 - P];
        assert !SeparatorAt(a, e - P);
      } else if e + 1 == P + |a| {
        assert w[e + 1] == '.';
      } else if e == P + |a| {
        assert w[e] == '.';
      } else {
        assert w[e] == x[e - P - |a| - 1] && w[e + 1] == x[e - P - |a|];
        assert !SeparatorAt(x, e - P - |a| - 1);
      }
    }
  }

  /** After any separator of `pre + Joined(parts)`, the rest is a suffix of `_` + the joined tail. */
  lemma SeparatorTail(parts: seq<string>, pre: string, e: int)
    requires Splittable(parts) && |parts| >= 3
    requires pre == "" || (pre == "_" && parts[0][0] != '_')
    ensures SeparatorAt(pre + Joined(parts), e) ==>
              IsSuffix((pre + Joined(parts))[e + 2..], "_" + Joined(parts[1..]))
  {
    var R := Joined(parts[1..]);
    assert R[0] == parts[1][0];
    var q := parts[0];
    assert Joined(parts) == q + Separator + R;
    assert pre + (q + Separator + R) == pre + q + Separator + R;
    SeparatorTailOf(pre, q, R, e);
  }

  lemma SeparatorTailOf(pre: string, q: string, R: string, e: int)
    requires Plain(q) && R != [] && R[0] != '_'
    requires pre == "" || (pre == "_" && q[0] != '_')
    ensures SeparatorAt(pre + q + Separator + R, e) ==> IsSuffix((pre + q + Separator + R)[e + 2..], "_" + R)
  {
    var w := pre + q + Separator + R;
    var P := |pre|;
    if 0 <= e && e + 1 < |w| {
      if e < P {
        assert w[e + 1] == q[0];
      } else if e + 1 < P + |q| {
        assert w[e] == q[e - P] && w[e + 1] == q[e + 1 - P];
        assert !SeparatorAt(q, e - P);
      } else if e + 1 == P + |q| {
        assert w[e + 2..] == "_" + R;
      } else if e == P + |q| {
        assert w[e + 2..] == R;
        assert R == ("_" + R)[1..];
      } else if e == P + |q| + 1 {
        assert w[e + 1] == R[0];
      } else {
        assert w[e + 2..] == R[e - P - |q|..];
        assert R[e - P - |q|..] == ("_" + R)[e - P - |q| + 1..];
      }
    }
  }

  /** No suffix of `_` + a join of `k + 1` parts holds the `k` separators the pattern needs. */
  lemma {:induction false} NoMatchInTail(k: nat, parts: seq<string>, u: string)
    requires k >= 1 && |parts| == k + 1 && Splittable(parts) && parts[0][0] != '_'
    requires IsSuffix(u, "_" + Joined(parts))
    ensures Groups(k, u) == None
    decreases k
  {
    if |u| >= 2 {
      var w := "_" + Joined(parts);
      var off := |w| - |u|;
      forall d | 1 <= d <= |u| - 2 ensures !Hit(k, u, d) {
        assert u[d] == w[off + d] && u[d + 1] == w[off + d + 1];
        if k == 1 {
          NoSeparatorInLast(parts, "_", off + d);
        } else {
          SeparatorTail(parts, "_", off + d);
          if SeparatorAt(u, d) {
            assert u[d + 2..] == w[off + d + 2..];
            var v := "_" + Joined(parts[1..]);
            assert IsSuffix(u[d + 2..], v);
            assert parts[1..][0][0] != '_';
            assert Splittable(parts[1..]) by {
              assert forall i :: 1 <= i < |parts[1..]| - 1 ==> parts[1..][i] == parts[i + 1];
            }
            NoMatchInTail(k - 1, parts[1..], u[d + 2..]);
          }
        }
      }
      SepSearchNone(k, u, |u| - 2);
    }
  }

  /** The pattern splits a join of splittable parts back into exactly those parts. */
  lemma {:induction false} GroupsOfJoined(parts: seq<string>)
    requires Splittable(parts)
    ensures Groups(|parts| - 2, Joined(parts)) == Some(parts)
    decreases |parts|, 1
  {
    if |parts| == 2 {
      GroupsOfPair(parts);
    } else {
      GroupsOfCons(parts);
    }
  }

  /** The last two parts: the dot they are joined by is the right-most one. */
  lemma GroupsOfPair(parts: seq<string>)
    requires Splittable(parts) && |parts| == 2
    ensures Groups(0, Joined(parts)) == Some(parts)
  {
    var t := Joined(parts);
    var a, x := parts[0], parts[1];
    assert t == a + "." + x;
    assert t[|a|] == '.';
    forall d' | |a| < d' <= |t| - 2 ensures t[d'] != '.' {
      assert t[d'] == x[d' - |a| - 1];
    }
    assert t[..|a|] == a && t[|a| + 1..] == x;
    DotSplitFinds(t, |t| - 2, |a|);
    assert [t[..|a|], t[|a| + 1..]] == parts;
  }

  /** More than two parts: the separator after the first part is the right-most hit. */
  lemma {:induction false} GroupsOfCons(parts: seq<string>)
    requires Splittable(parts) && |parts| >= 3
    ensures Groups(|parts| - 2, Joined(parts)) == Some(parts)
    decreases |parts|, 0
  {
    var t := Joined(parts);
    var k := |parts| - 2;
    var q, more := parts[0], parts[1..];
    assert Splittable(more) by {
      assert forall i :: 1 <= i < |more| - 1 ==> more[i] == parts[i + 1];
    }
    GroupsOfJoined(more);
    var R := Joined(more);
    assert t == q + Separator + R;
    assert t[|q| + 2..] == R;
    assert t[..|q|] == q;
    assert Hit(k, t, |q|);
    forall d' | |q| < d' <= |t| - 2 ensures !Hit(k, t, d') {
      NotHitAfterFirst(parts, d');
    }
    SepSearchFinds(k, t, |t| - 2, |q|);
    assert [t[..|q|]] + more == parts;
  }

  /** No hit lies right of the first separator of a join. */
  lemma NotHitAfterFirst(parts: seq<string>, d': int)
    requires Splittable(parts) && |parts| >= 3
    requires |parts[0]| < d' <= |Joined(parts)| - 2
    ensures !Hit(|parts| - 2, Joined(parts), d')
  {
    var t := Joined(parts);
    var k := |parts| - 2;
    var q, more := parts[0], parts[1..];
    var R := Joined(more);
    assert R[0] == more[0][0];
    ShiftedSeparator(q, R, d');
    if d' >= |q| + 2 {
      var e := d' - |q| - 2;
      assert "" + R == R;
      if |more| == 2 {
        NoSeparatorInLast(more, "", e);
      } else {
        SeparatorTail(more, "", e);
        if SeparatorAt(R, e) {
          assert Splittable(more[1..]) by {
            assert forall i :: 1 <= i < |more[1..]| - 1 ==> more[1..][i] == parts[i + 2];
          }
          assert more[1..][0][0] != '_';
          NoMatchInTail(k - 1, more[1..], t[d' + 2..]);
        }
      }
    }
  }

  /** Separators of `q + __ + R` right of the first one are those of `R`. */
  lemma ShiftedSeparator(q: string, R: string, d': int)
    requires R != [] && R[0] != '_' && |q| < d'
    ensures d' < |q| + 2 ==> !SeparatorAt(q + Separator + R, d')
    ensures d' >= |q| + 2 ==> (SeparatorAt(q + Separator + R, d') <==> SeparatorAt(R, d' - |q| - 2))
    ensures d' >= |q| + 2 && SeparatorAt(R, d' - |q| - 2) ==> (q + Separator + R)[d' + 2..] == R[d' - |q|..]
  {
    var t := q + Separator + R;
    if d' < |q| + 2 {
      assert t[d' + 1] == R[0];
    } else if d' + 1 < |t| {
      assert t[d'] == R[d' - |q| - 2] && t[d' + 1] == R[d' - |q| - 1];
    }
  }

  /** Generating a name and parsing it returns the original parts. */
  lemma ParseGenerate(n: ExportName)
    requires Plain(n.customerId) && Plain(n.sourceId) && Plain(n.repoId) && Plain(n.entityName) && Plain(n.fileSuffix)
    requires n.sourceId[0] != '_' && n.repoId[0] != '_' && n.entityName[0] != '_'
    requires '.' !in n.fileSuffix
    ensures Generate(Some(n.fileSuffix), Some(n.customerId), Some(n.sourceId), Some(n.repoId), Some(n.entityName))
            == Ok(FileName(n))
    ensures Parse(FileName(n)) == Ok(n)
  {
    var parts := [n.customerId, n.sourceId, n.repoId, n.entityName, n.fileSuffix];
    assert Splittable(parts);
    JoinedFive(parts);
    GroupsOfJoined(parts);
    var name := FileName(n);
    assert '\n' !in name;
  }

  /** A non-empty part without underscores or newlines is plain. */
  lemma PlainWithoutUnderscore(p: string)
    requires p != "" && '_' !in p && '\n' !in p
    ensures Plain(p)
  {
    forall i | 0 <= i < |p| ensures !SeparatorAt(p, i) {
      if i + 1 < |p| { assert p[i] in p; }
    }
  }

  /** The example name spelled out in pieces is the generated file name. */
  lemma ExampleFileName(name: string, n: ExportName)
    requires name == "cust-id__source-id__repo-id__git_commits.jsonl"
    requires n == ExportName("cust-id", "source-id", "repo-id", "git_commits", "jsonl")
    ensures FileName(n) == name
  {
    assert "cust-id" + "__" == "cust-id__";
    assert "cust-id__" + "source-id" == "cust-id__source-id";
    assert "cust-id__source-id" + "__" == "cust-id__source-id__";
    assert "cust-id__source-id__" + "repo-id" == "cust-id__source-id__repo-id";
    assert "cust-id__source-id__repo-id" + "__" == "cust-id__source-id__repo-id__";
    assert "cust-id__source-id__repo-id__" + "git_commits" == "cust-id__source-id__repo-id__git_commits";
    assert "cust-id__source-id__repo-id__git_commits" + "." == "cust-id__source-id__repo-id__git_commits.";
  }

  /** The record type of the example has one underscore, and no `__`. */
  lemma EntityPlain(e: string)
    requires e == "git_commits"
    ensures Plain(e)
  {
    forall i | 0 <= i < |e| ensures !SeparatorAt(e, i) {
      if i + 1 < |e| { assert e[i] != '_' || e[i + 1] != '_'; }
    }
  }

  /** The file name used as an example in the extractor's tests parses into its parts. */
  lemma ParseExample(name: string, n: ExportName)
    requires name == "cust-id__source-id__repo-id__git_commits.jsonl"
    requires n == ExportName("cust-id", "source-id", "repo-id", "git_commits", "jsonl")
    ensures Parse(name) == Ok(n)
  {
    PlainWithoutUnderscore(n.customerId);
    PlainWithoutUnderscore(n.sourceId);
    PlainWithoutUnderscore(n.repoId);
    PlainWithoutUnderscore(n.fileSuffix);
    EntityPlain(n.entityName);
    ExampleFileName(name, n);
    ParseGenerate(n);
  }

  /** A name without any `__` does not match the pattern. */
  lemma ParseRejectsUnseparated(fileName: string)
    requires forall d | 0 <= d < |fileName| :: !SeparatorAt(fileName, d)
    ensures Parse(fileName) == Err(UnexpectedStructure(fileName))
  {
    var body := if |fileName| > 0 && fileName[|fileName| - 1] == '\n' then fileName[..|fileName| - 1] else fileName;
    if '\n' !in body && |body| >= 2 {
      forall d | 1 <= d <= |body| - 2 ensures !Hit(3, body, d) {
        assert !SeparatorAt(fileName, d);
      }
      SepSearchNone(3, body, |body| - 2);
    }
  }

  /** The malformed name from the source's tests is rejected. */
  lemma ParseRejectsExample(fileName: string)
    requires fileName == "whatever"
    ensures Parse(fileName) == Err(UnexpectedStructure(fileName))
  {
    forall d | 0 <= d < |fileName| ensures !SeparatorAt(fileName, d) {
      assert fileName[d] != '_';
    }
    ParseRejectsUnseparated(fileName);
  }
}
