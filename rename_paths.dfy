/**
 * Rename-path normalisation (coco_agent/services/git.py, get_path). git reports a renamed file in
 * its per-path statistics as `pre/{old => new}/post` or `old => new`; the extractor turns that
 * back into the old path with the pattern
 * `^((?P<start>.*?)/?{)?(?P<a>.*) => .*?(}/(?P<end>.*))?$` and a `/`-join of the groups
 * start, a and end that matched non-empty text.
 */
module RenamePaths {
  import opened Results
  import opened Text

  const Arrow := " => "

  /** ` => ` at index `k`. */
  predicate ArrowAt(b: string, k: int) {
    0 <= k && k + 4 <= |b| && b[k] == ' ' && b[k + 1] == '=' && b[k + 2] == '>' && b[k + 3] == ' '
  }

  /** `}/` at index `k`. */
  predicate CloseAt(b: string, k: int) {
    0 <= k && k + 2 <= |b| && b[k] == '}' && b[k + 1] == '/'
  }

  lemma ArrowAtOccurs(b: string, k: int)
    ensures ArrowAt(b, k) <==> OccursAt(b, Arrow, k)
  {
    if 0 <= k && k + 4 <= |b| {
      var w := b[k..k + 4];
      assert w == Arrow <==> (w[0] == ' ' && w[1] == '=' && w[2] == '>' && w[3] == ' ');
    }
  }

  // ----- The pattern, as Python's backtracking matcher runs it on a newline-free text -----

  /** The groups of a match: `start` is absent when the optional first group did not take part. */
  datatype Match = Match(start: Option<string>, a: string, end: Option<string>)

  /** What follows ` => `: the lazy `.*?` grows from `p` until `}/` follows it (the optional group,
      whose `.*` then runs to the end) or the text ends (the group is skipped). */
  function EndGroup(b: string, p: nat): (r: Option<string>)
    requires p <= |b|
    ensures r.None? <==> forall q :: p <= q ==> !CloseAt(b, q)
    ensures r.Some? ==> |r.value| + 2 <= |b| - p && r.value == b[|b| - |r.value|..]
    decreases |b| - p
  {
    if CloseAt(b, p) then Some(b[p + 2..])
    else if p == |b| then None
    else EndGroup(b, p + 1)
  }

  /** The greedy `(?P<a>.*)` starting at `p`: ` => ` is tried at `k` first, then further left. */
  function ArrowSearch(b: string, p: nat, k: int): Option<(string, Option<string>)>
    requires p <= |b| && k <= |b| - 4
    decreases k - p + 1
  {
    if k < p then None
    else if ArrowAt(b, k) then Some((b[p..k], EndGroup(b, k + 4)))
    else ArrowSearch(b, p, k - 1)
  }

  /** The rest of the pattern, from the start of group `a` at `p`. */
  function ArrowFrom(b: string, p: nat): Option<(string, Option<string>)>
    requires p <= |b|
  {
    ArrowSearch(b, p, |b| - 4)
  }

  /** With no arrow in the searched range the search fails. */
  lemma {:induction false} ArrowSearchNone(b: string, p: nat, k: int)
    requires p <= |b| && k <= |b| - 4
    requires forall k' :: p <= k' <= k ==> !ArrowAt(b, k')
    ensures ArrowSearch(b, p, k).None?
    decreases k - p + 1
  {
    if k >= p {
      ArrowSearchNone(b, p, k - 1);
    }
  }

  /** With no arrow from `p` on, the rest of the pattern fails. */
  lemma ArrowFromNone(b: string, p: nat)
    requires p <= |b|
    requires forall k :: p <= k ==> !ArrowAt(b, k)
    ensures ArrowFrom(b, p).None?
  {
    ArrowSearchNone(b, p, |b| - 4);
  }

  /** One try of the lazy `start` of length `i`: `/?` takes the slash if it can, else it is empty. */
  function PrefixAt(b: string, i: nat): Option<Match>
    requires i < |b|
  {
    if i + 1 < |b| && b[i] == '/' && b[i + 1] == '{' && ArrowFrom(b, i + 2).Some? then
      Some(Match(Some(b[..i]), ArrowFrom(b, i + 2).value.0, ArrowFrom(b, i + 2).value.1))
    else if b[i] == '{' && ArrowFrom(b, i + 1).Some? then
      Some(Match(Some(b[..i]), ArrowFrom(b, i + 1).value.0, ArrowFrom(b, i + 1).value.1))
    else None
  }

  /** The optional first group, with `start` tried from length `i` upwards. */
  function PrefixSearch(b: string, i: nat): (r: Option<Match>)
    requires i <= |b|
    ensures r.None? <==> forall i' :: i <= i' < |b| ==> PrefixAt(b, i').None?
    decreases |b| - i
  {
    if i == |b| then None
    else if PrefixAt(b, i).Some? then PrefixAt(b, i)
    else PrefixSearch(b, i + 1)
  }

  /** The whole pattern on a text without newlines: the first group if it can take part, else without it. */
  function MatchPath(b: string): Option<Match> {
    match PrefixSearch(b, 0)
    case Some(m) => Some(m)
    case None =>
      match ArrowFrom(b, 0)
      case Some(t) => Some(Match(None, t.0, t.1))
      case None => None
  }

  /** The groups that matched non-empty text, in order: exactly the non-empty groups are kept. */
  function Present(groups: seq<Option<string>>): (r: seq<string>)
    ensures |r| <= |groups|
    ensures forall i :: 0 <= i < |r| ==> r[i] != ""
    ensures forall s :: s in r <==> exists i :: 0 <= i < |groups| && groups[i] == Some(s) && s != ""
    decreases |groups|
  {
    if groups == [] then []
    else
      var rest := Present(groups[1..]);
      assert forall i :: 0 <= i < |groups[1..]| ==> groups[1..][i] == groups[i + 1];
      (if Truthy(groups[0]) then [groups[0].value] else []) + rest
  }

  /** Keeping the present groups distributes over appending groups, so their order is kept. */
  lemma {:induction false} PresentAppend(a: seq<Option<string>>, b: seq<Option<string>>)
    ensures Present(a + b) == Present(a) + Present(b)
    decreases |a|
  {
    if a == [] {
      assert a + b == b;
    } else {
      assert (a + b)[0] == a[0];
      assert (a + b)[1..] == a[1..] + b;
      PresentAppend(a[1..], b);
    }
  }

  /** Python's `"/".join(parts)`. */
  function JoinSlash(parts: seq<string>): string {
    if parts == [] then "" else if |parts| == 1 then parts[0] else parts[0] + "/" + JoinSlash(parts[1..])
  }

  /** get_path. `.` never matches a newline and `$` also matches before one final newline, so the
      pattern is run on the path without one trailing newline, and fails if a newline remains. */
  function GetPath(objpath: string): string {
    var body := if |objpath| > 0 && objpath[|objpath| - 1] == '\n' then objpath[..|objpath| - 1] else objpath;
    if '\n' in body then objpath
    else
      match MatchPath(body)
      case None => objpath
      case Some(m) => JoinSlash(Present([m.start, Some(m.a), m.end]))
  }

  // ----- What get_path does to the two rename notations -----

  /** No ` => ` anywhere in `t`. */
  ghost predicate NoArrow(t: string) {
    forall k :: !ArrowAt(t, k)
  }

  /** No `}/` anywhere in `t`. */
  ghost predicate NoClose(t: string) {
    forall q :: !CloseAt(t, q)
  }

  /** A path without ` => ` is returned unchanged. */
  lemma GetPathNoArrow(objpath: string)
    requires !Contains(objpath, Arrow)
    ensures GetPath(objpath) == objpath
  {
    var body := if |objpath| > 0 && objpath[|objpath| - 1] == '\n' then objpath[..|objpath| - 1] else objpath;
    forall k | 0 <= k ensures !ArrowAt(body, k) {
      ArrowAtOccurs(objpath, k);
      assert ArrowAt(body, k) ==> ArrowAt(objpath, k);
    }
    if '\n' !in body {
      forall i | 0 <= i < |body| ensures PrefixAt(body, i).None? {
        ArrowFromNone(body, i + 1);
        if i + 2 <= |body| { ArrowFromNone(body, i + 2); }
      }
      ArrowFromNone(body, 0);
    }
  }

  /** What closes the braces: `}` alone when `S` is empty, else `}/S`. */
  function BracePost(S: string): string {
    if S == "" then "}" else "}/" + S
  }

  /** `P/{A => B}/S`, with `P/` absent when `P` is empty and `/S` absent when `S` is empty. */
  function BraceForm(P: string, A: string, B: string, S: string): string {
    (if P == "" then "" else P + "/") + "{" + A + Arrow + B + BracePost(S)
  }

  /** The text after the arrow holds no further arrow. */
  lemma NoArrowAfter(b: string, k0: int, rest: string)
    requires 0 <= k0 && k0 + 4 <= |b| && ArrowAt(b, k0) && b[k0 + 3..] == rest
    requires NoArrow(rest)
    ensures forall k :: k0 < k ==> !ArrowAt(b, k)
  {
    forall k | k0 < k ensures !ArrowAt(b, k) {
      if k >= k0 + 3 {
        assert ArrowAt(b, k) ==> ArrowAt(rest, k - k0 - 3);
      }
    }
  }

  /** After the arrow, the first `}/` is the one that opens `S`, or there is none. */
  lemma EndOfBrace(b: string, q0: int, B: string, S: string)
    requires 0 <= q0 && q0 + |B| <= |b|
    requires b[q0..] == B + BracePost(S)
    requires NoClose(B)
    ensures EndGroup(b, q0) == (if S == "" then None else Some(S))
  {
    var c := q0 + |B|;
    assert b[c] == '}';
    forall q | q0 <= q < c ensures !CloseAt(b, q) {
      if q + 1 < c {
        assert b[q] == B[q - q0] && b[q + 1] == B[q - q0 + 1];
        assert !CloseAt(B, q - q0);
      }
    }
    if S == "" {
      assert |b| == c + 1;
    } else {
      assert CloseAt(b, c) && b[c + 2..] == S;
      EndGroupFirst(b, q0, c);
    }
  }

  lemma {:induction false} EndGroupFirst(b: string, p: nat, q: nat)
    requires p <= q && CloseAt(b, q)
    requires forall q' :: p <= q' < q ==> !CloseAt(b, q')
    ensures EndGroup(b, p) == Some(b[q + 2..])
    decreases q - p
  {
    if p < q {
      EndGroupFirst(b, p + 1, q);
    }
  }

  lemma {:induction false} ArrowSearchLast(b: string, p: nat, k: int, k0: nat)
    requires p <= k0 <= k <= |b| - 4 && ArrowAt(b, k0)
    requires forall k' :: k0 < k' <= k ==> !ArrowAt(b, k')
    ensures ArrowSearch(b, p, k) == Some((b[p..k0], EndGroup(b, k0 + 4)))
    decreases k - p + 1
  {
    if k > k0 {
      ArrowSearchLast(b, p, k - 1, k0);
    }
  }

  lemma {:induction false} PrefixSearchFirst(b: string, i: nat, j: nat)
    requires i <= j < |b| && PrefixAt(b, j).Some?
    requires forall i' :: i <= i' < j ==> PrefixAt(b, i').None?
    ensures PrefixSearch(b, i) == PrefixAt(b, j)
    decreases j - i
  {
    if i < j {
      PrefixSearchFirst(b, i + 1, j);
    }
  }

  /** The right-most arrow of `b = front + Arrow + back` is the written one when `back` holds none. */
  lemma LastArrow(b: string, front: string, back: string, p: nat)
    requires b == front + Arrow + back
    requires NoArrow(" " + back) && p <= |front|
    ensures ArrowFrom(b, p) == Some((front[p..], EndGroup(b, |front| + 4)))
  {
    WrittenArrow(b, front, back);
    ArrowFromLast(b, |front|, p);
    FrontSlice(b, front, Arrow, back, p);
  }

  /** The greedy group ends at the last arrow. */
  lemma ArrowFromLast(b: string, k0: nat, p: nat)
    requires p <= k0 && ArrowAt(b, k0) && forall k :: k0 < k ==> !ArrowAt(b, k)
    ensures ArrowFrom(b, p) == Some((b[p..k0], EndGroup(b, k0 + 4)))
  {
    ArrowSearchLast(b, p, |b| - 4, k0);
  }

  lemma FrontSlice(b: string, front: string, mid: string, back: string, p: nat)
    requires b == front + mid + back && p <= |front|
    ensures b[p..|front|] == front[p..]
  {
    assert forall i :: p <= i < |front| ==> b[i] == front[i];
  }

  /** The written arrow of `front + Arrow + back` is one, and the last when `back` holds none. */
  lemma WrittenArrow(b: string, front: string, back: string)
    requires b == front + Arrow + back
    requires NoArrow(" " + back)
    ensures ArrowAt(b, |front|) && forall k :: |front| < k ==> !ArrowAt(b, k)
  {
    var k0 := |front|;
    assert ArrowAt(b, k0) by {
      assert b[k0..k0 + 4] == Arrow;
      ArrowAtOccurs(b, k0);
    }
    assert b[k0 + 3..] == " " + back;
    NoArrowAfter(b, k0, " " + back);
  }

  /** The lazy `start` stops at the first brace, right before which the optional slash is taken. */
  lemma BracePrefix(b: string, P: string, rest: string)
    requires b == (if P == "" then "" else P + "/") + "{" + rest
    requires '{' !in P
    requires ArrowFrom(b, |b| - |rest|).Some?
    ensures PrefixSearch(b, 0)
            == Some(Match(Some(P), ArrowFrom(b, |b| - |rest|).value.0, ArrowFrom(b, |b| - |rest|).value.1))
  {
    var j := if P == "" then 0 else |P|;
    forall i' | 0 <= i' < j ensures PrefixAt(b, i').None? {
      assert b[i'] == P[i'];
      if i' + 1 < |P| { assert b[i' + 1] == P[i' + 1]; }
    }
    assert b[..j] == P;
    PrefixSearchFirst(b, 0, j);
  }

  /** How the brace notation splits around its arrow. */
  lemma BraceShape(P: string, A: string, B: string, S: string)
    requires '\n' !in P && '\n' !in A && '\n' !in B && '\n' !in S
    ensures var pre := if P == "" then "" else P + "/";
            var b := BraceForm(P, A, B, S);
            && b == (pre + "{" + A) + Arrow + (B + BracePost(S))
            && b == pre + "{" + (A + Arrow + (B + BracePost(S)))
            && b[|pre + "{" + A| + 4..] == B + BracePost(S)
            && " " + (B + BracePost(S)) == " " + B + BracePost(S)
            && (pre + "{" + A)[|pre| + 1..] == A
            && '\n' !in b && b[|b| - 1] in b
  {
    var pre := if P == "" then "" else P + "/";
    var front := pre + "{" + A;
    var back := B + BracePost(S);
    var b := BraceForm(P, A, B, S);
    Regroup(pre, "{", A, Arrow, B, BracePost(S));
    assert b[|front| + 4..] == back;
    assert front[|pre| + 1..] == A;
    NoNewlineIn(b, pre, A, B, S);
  }

  /** Five concatenations regrouped around the fourth part. */
  lemma Regroup(a: string, c: string, d: string, e: string, f: string, g: string)
    ensures a + c + d + e + f + g == (a + c + d) + e + (f + g)
    ensures a + c + d + e + f + g == a + c + (d + e + (f + g))
  {}

  lemma NoNewlineIn(b: string, pre: string, A: string, B: string, S: string)
    requires b == pre + "{" + A + Arrow + B + BracePost(S)
    requires '\n' !in pre && '\n' !in A && '\n' !in B && '\n' !in S
    ensures '\n' !in b && (|b| > 0 ==> b[|b| - 1] in b)
  {
    assert '\n' !in BracePost(S);
  }

  /** A path without newlines that the pattern matches is replaced by the joined groups. */
  lemma GetPathOfMatch(b: string, m: Match)
    requires '\n' !in b && MatchPath(b) == Some(m)
    ensures GetPath(b) == JoinSlash(Present([m.start, Some(m.a), m.end]))
  {
    assert |b| > 0 ==> b[|b| - 1] in b;
  }

  /** The pattern splits the brace notation into `P`, `A` and, when present, `S`. */
  lemma MatchBrace(P: string, A: string, B: string, S: string)
    requires '\n' !in P && '\n' !in A && '\n' !in B && '\n' !in S
    requires '{' !in P
    requires NoArrow(" " + B + BracePost(S)) && NoClose(B)
    ensures '\n' !in BraceForm(P, A, B, S)
    ensures MatchPath(BraceForm(P, A, B, S)) == Some(Match(Some(P), A, if S == "" then None else Some(S)))
  {
    var pre := if P == "" then "" else P + "/";
    var front := pre + "{" + A;
    var back := B + BracePost(S);
    var b := BraceForm(P, A, B, S);
    BraceShape(P, A, B, S);
    EndOfBrace(b, |front| + 4, B, S);
    LastArrow(b, front, back, |pre| + 1);
    BracePrefix(b, P, A + Arrow + back);
  }

  /** The brace notation is read back as the old path: its non-empty parts among `P`, `A`, `S`. */
  lemma GetPathBrace(P: string, A: string, B: string, S: string)
    requires '\n' !in P && '\n' !in A && '\n' !in B && '\n' !in S
    requires '{' !in P
    requires NoArrow(" " + B + BracePost(S)) && NoClose(B)
    ensures GetPath(BraceForm(P, A, B, S)) == JoinSlash(Present([Some(P), Some(A), Some(S)]))
  {
    MatchBrace(P, A, B, S);
    GetPathOfMatch(BraceForm(P, A, B, S), Match(Some(P), A, if S == "" then None else Some(S)));
    PresentBrace(P, A, S);
  }

  /** `start` and `a` took part, `end` when `S` is non-empty. */
  lemma PresentBrace(P: string, A: string, S: string)
    ensures JoinSlash(Present([Some(P), Some(A), if S == "" then None else Some(S)]))
            == JoinSlash(Present([Some(P), Some(A), Some(S)]))
  {
    var g := [Some(P), Some(A), if S == "" then None else Some(S)];
    var h := [Some(P), Some(A), Some(S)];
    assert g[1..][1..][1..] == [] && h[1..][1..][1..] == [];
    assert Present(g[1..][1..]) == Present(h[1..][1..]);
  }

  /** The pattern finds no prefix or suffix in the bare notation `A => B`. */
  lemma MatchPlain(A: string, B: string)
    requires '\n' !in A && '\n' !in B
    requires '{' !in A
    requires NoArrow(" " + B) && NoClose(B)
    ensures MatchPath(A + Arrow + B) == Some(Match(None, A, None))
  {
    var b := A + Arrow + B;
    var k0 := |A|;
    LastArrow(b, A, B, 0);
    forall q | k0 + 4 <= q ensures !CloseAt(b, q) {
      assert CloseAt(b, q) ==> CloseAt(B, q - k0 - 4);
    }
    assert EndGroup(b, k0 + 4) == None;
    forall i' | 0 <= i' < |b| ensures PrefixAt(b, i').None? {
      if i' < |A| {
        assert b[i'] == A[i'];
        if i' + 1 < |A| { assert b[i' + 1] == A[i' + 1]; }
      } else {
        LastArrowNone(A, B, i' + 1);
        if i' + 2 <= |b| { LastArrowNone(A, B, i' + 2); }
      }
    }
    assert A[0..] == A;
  }

  /** The bare notation `A => B` is read back as `A`. */
  lemma GetPathPlain(A: string, B: string)
    requires '\n' !in A && '\n' !in B
    requires '{' !in A
    requires NoArrow(" " + B) && NoClose(B)
    ensures GetPath(A + Arrow + B) == A
  {
    MatchPlain(A, B);
    assert '\n' !in A + Arrow + B;
    GetPathOfMatch(A + Arrow + B, Match(None, A, None));
    PresentOne(A);
  }

  /** No arrow starts after the written one. */
  lemma LastArrowNone(front: string, back: string, p: nat)
    requires NoArrow(" " + back) && |front| < p <= |front + Arrow + back|
    ensures ArrowFrom(front + Arrow + back, p).None?
  {
    var b := front + Arrow + back;
    WrittenArrow(b, front, back);
    ArrowFromNone(b, p);
  }

  /** Only the `a` group took part. */
  lemma PresentOne(a: string)
    ensures JoinSlash(Present([None, Some(a), None])) == a
  {
    var g := [None, Some(a), None];
    assert g[1..][1..][1..] == [];
    assert Present(g[1..][1..]) == [];
    assert Present(g[1..]) == (if a == "" then [] else [a]);
  }

  /** Three present groups are joined with two slashes. */
  lemma JoinThree(P: string, A: string, S: string)
    requires P != "" && A != "" && S != ""
    ensures JoinSlash(Present([Some(P), Some(A), Some(S)])) == P + "/" + A + "/" + S
  {
    var g := [Some(P), Some(A), Some(S)];
    assert g[1..][1..][1..] == [];
    assert Present(g[1..][1..]) == [S];
    assert Present(g[1..]) == [A, S];
    var parts := [P, A, S];
    assert parts[1..] == [A, S] && parts[1..][1..] == [S];
    assert JoinSlash(parts[1..]) == A + "/" + S;
  }

  lemma BraceExampleForm(P: string, A: string, B: string, S: string)
    requires P == "src" && A == "old" && B == "new" && S == "main.py"
    ensures BraceForm(P, A, B, S) == "src/{old => new}/main.py"
    ensures P + "/" + A + "/" + S == "src/old/main.py"
  {
    assert BracePost(S) == "}/main.py";
    assert BraceForm(P, A, B, S) == "src/" + "{" + "old" + " => " + "new" + "}/main.py";
  }

  lemma BraceExampleGuards(B: string, S: string)
    requires B == "new" && S == "main.py"
    ensures NoArrow(" " + B + BracePost(S)) && NoClose(B)
  {
    var t := " " + B + BracePost(S);
    assert t == " new}/main.py";
    forall k ensures !ArrowAt(t, k) {
      if 0 < k < |t| { assert t[k] != ' '; }
    }
  }

  /** A rename inside a directory: `src/{old => new}/main.py` is looked up as `src/old/main.py`. */
  lemma GetPathBraceExample(objpath: string)
    requires objpath == "src/{old => new}/main.py"
    ensures GetPath(objpath) == "src/old/main.py"
  {
    var P, A, B, S := "src", "old", "new", "main.py";
    BraceExampleForm(P, A, B, S);
    BraceExampleGuards(B, S);
    GetPathBrace(P, A, B, S);
    JoinThree(P, A, S);
  }

  /** A rename of a whole path: `old.py => new.py` is looked up as `old.py`. */
  lemma GetPathPlainExample(objpath: string)
    requires objpath == "old.py => new.py"
    ensures GetPath(objpath) == "old.py"
  {
    var t := " new.py";
    forall k ensures !ArrowAt(t, k) {
      if 0 < k < |t| { assert t[k] != ' '; }
    }
    forall q ensures !CloseAt("new.py", q) {}
    GetPathPlain("old.py", "new.py");
    assert "old.py" + Arrow + "new.py" == objpath;
  }
}
