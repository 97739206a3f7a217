/**
 * The line classifier (coco_agent/services/git/content.py): a token stream from a lexer is cut
 * into lines at every token whose text ends with a newline; each line collects the marks of its
 * tokens (code, documentation, string), and the lines are tallied by the strongest mark they hold:
 * code before string before documentation, and a line with no mark counts as empty.
 *
 * Lexing is not modelled: the lexer is given as its name and the tokens it produces, and the
 * language's white-text test (white characters and white code words) is a predicate it carries.
 */
module LineClassifier {
  import opened Results
  import opened Text

  /** Token types as the classifier tells them apart: a comment other than a preprocessor one,
      `Comment.Preproc`, `Comment.PreprocFile`, any string type, anything else. */
  datatype TokenKind = Comment | Preproc | PreprocFile | String | Other

  datatype Token = Token(kind: TokenKind, text: string)

  /** The marks of a line: `c` (code), `d` (documentation), `s` (string). */
  datatype Mark = Code | Doc | Str

  /** A lexer: its name, the tokens it produces for the text, and the white-text test of its
      language for a token's text. */
  datatype Lexer = Lexer(name: string, tokens: seq<Token>, isWhite: string -> bool)

  /** The mark one token adds to its line. */
  function TokenMarks(t: Token, isWhite: string -> bool): (r: set<Mark>)
    ensures Doc in r <==> t.kind == Comment
    ensures Str in r <==> t.kind == String
    ensures Code in r <==> t.kind != Comment && t.kind != String && !isWhite(t.text)
  {
    if t.kind == Comment then {Doc}
    else if t.kind == String then {Str}
    else if isWhite(t.text) then {}
    else {Code}
  }

  predicate EndsLine(t: Token) {
    EndsWith(t.text, "\n")
  }

  /** The groups still to be yielded from `tokens` when the current line holds `marks`. */
  function Groups(tokens: seq<Token>, isWhite: string -> bool, marks: set<Mark>): seq<set<Mark>>
    decreases |tokens|
  {
    if tokens == [] then (if marks != {} then [marks] else [])
    else
      var m := marks + TokenMarks(tokens[0], isWhite);
      if EndsLine(tokens[0]) then [m] + Groups(tokens[1..], isWhite, {})
      else Groups(tokens[1..], isWhite, m)
  }

  /** What `_line_parts_patched` yields: the marks of each line. */
  function LineParts(tokens: seq<Token>, isWhite: string -> bool): seq<set<Mark>> {
    Groups(tokens, isWhite, {})
  }

  /** The loop of `_line_parts_patched`; the per-line token lists are not kept, as counting never
      reads them. */
  method LinePartsLoop(tokens: seq<Token>, isWhite: string -> bool) returns (groups: seq<set<Mark>>)
    ensures groups == LineParts(tokens, isWhite)
  {
    groups := [];
    var lineMarks: set<Mark> := {};
    var i := 0;
    while i < |tokens|
      invariant 0 <= i <= |tokens|
      invariant LineParts(tokens, isWhite) == groups + Groups(tokens[i..], isWhite, lineMarks)
    {
      assert tokens[i..][1..] == tokens[i + 1..];
      var t := tokens[i];
      lineMarks := lineMarks + TokenMarks(t, isWhite);
      if EndsWith(t.text, "\n") {
        assert groups + [lineMarks] + Groups(tokens[i + 1..], isWhite, {})
               == groups + ([lineMarks] + Groups(tokens[i + 1..], isWhite, {}));
        groups := groups + [lineMarks];
        lineMarks := {};
      }
      i := i + 1;
    }
    if lineMarks != {} {
      groups := groups + [lineMarks];
    }
  }

  /** The marks of all the tokens of a line. */
  function UnionMarks(line: seq<Token>, isWhite: string -> bool): set<Mark>
    decreases |line|
  {
    if line == [] then {} else TokenMarks(line[0], isWhite) + UnionMarks(line[1..], isWhite)
  }

  /** A line holds a mark exactly when one of its tokens adds it. */
  lemma {:induction false} UnionMarksMembers(line: seq<Token>, isWhite: string -> bool, m: Mark)
    ensures m in UnionMarks(line, isWhite) <==> exists k :: 0 <= k < |line| && m in TokenMarks(line[k], isWhite)
    decreases |line|
  {
    if line != [] {
      UnionMarksMembers(line[1..], isWhite, m);
      if m in UnionMarks(line[1..], isWhite) {
        var k :| 0 <= k < |line[1..]| && m in TokenMarks(line[1..][k], isWhite);
        assert line[k + 1] == line[1..][k];
      }
      if exists k :: 0 <= k < |line| && m in TokenMarks(line[k], isWhite) {
        var k :| 0 <= k < |line| && m in TokenMarks(line[k], isWhite);
        if k > 0 { assert line[1..][k - 1] == line[k]; }
      }
    }
  }

  lemma {:induction false} UnionAppend(line: seq<Token>, t: Token, isWhite: string -> bool)
    ensures UnionMarks(line + [t], isWhite) == UnionMarks(line, isWhite) + TokenMarks(t, isWhite)
    decreases |line|
  {
    if line == [] {
      assert [t][1..] == [];
    } else {
      assert (line + [t])[1..] == line[1..] + [t];
      UnionAppend(line[1..], t, isWhite);
    }
  }

  /** Tokens that end no line only add to the current line's marks. */
  lemma {:induction false} GroupsInsideLine(line: seq<Token>, rest: seq<Token>, isWhite: string -> bool, marks: set<Mark>)
    requires forall k :: 0 <= k < |line| ==> !EndsLine(line[k])
    ensures Groups(line + rest, isWhite, marks) == Groups(rest, isWhite, marks + UnionMarks(line, isWhite))
    decreases |line|
  {
    if line == [] {
      assert line + rest == rest;
      assert marks + UnionMarks(line, isWhite) == marks;
    } else {
      var t := line[0];
      assert (line + rest)[0] == t && (line + rest)[1..] == line[1..] + rest;
      assert Groups(line + rest, isWhite, marks) == Groups(line[1..] + rest, isWhite, marks + TokenMarks(t, isWhite));
      GroupsInsideLine(line[1..], rest, isWhite, marks + TokenMarks(t, isWhite));
      assert marks + TokenMarks(t, isWhite) + UnionMarks(line[1..], isWhite) == marks + UnionMarks(line, isWhite);
    }
  }

  /** A line ended by a newline token yields one group, the marks of all its tokens, whatever they
      are, and the next line starts afresh. */
  lemma LineGroup(line: seq<Token>, t: Token, rest: seq<Token>, isWhite: string -> bool)
    requires forall k :: 0 <= k < |line| ==> !EndsLine(line[k])
    requires EndsLine(t)
    ensures LineParts(line + [t] + rest, isWhite) == [UnionMarks(line + [t], isWhite)] + LineParts(rest, isWhite)
  {
    var tail := [t] + rest;
    assert line + [t] + rest == line + tail;
    GroupsInsideLine(line, tail, isWhite, {});
    var u := UnionMarks(line, isWhite);
    assert {} + u == u;
    assert tail[0] == t && tail[1..] == rest;
    assert Groups(tail, isWhite, u) == [u + TokenMarks(t, isWhite)] + Groups(rest, isWhite, {});
    UnionAppend(line, t, isWhite);
  }

  /** The text after the last newline yields a group only if it holds a mark; so an empty token
      stream yields nothing. */
  lemma TrailingGroup(line: seq<Token>, isWhite: string -> bool)
    requires forall k :: 0 <= k < |line| ==> !EndsLine(line[k])
    ensures LineParts(line, isWhite) == if UnionMarks(line, isWhite) == {} then [] else [UnionMarks(line, isWhite)]
  {
    assert line + [] == line;
    GroupsInsideLine(line, [], isWhite, {});
    var u := UnionMarks(line, isWhite);
    assert {} + u == u;
  }

  /** Every line a newline ends yields a group, so there are at least as many groups as such tokens
      and at most one more. */
  lemma {:induction false} GroupCount(tokens: seq<Token>, isWhite: string -> bool, marks: set<Mark>)
    ensures NewlineCount(tokens) <= |Groups(tokens, isWhite, marks)| <= NewlineCount(tokens) + 1
    ensures |tokens| > 0 && EndsLine(tokens[|tokens| - 1]) ==> |Groups(tokens, isWhite, marks)| == NewlineCount(tokens)
    decreases |tokens|
  {
    if tokens != [] {
      var m := marks + TokenMarks(tokens[0], isWhite);
      GroupCount(tokens[1..], isWhite, if EndsLine(tokens[0]) then {} else m);
      if |tokens| > 1 {
        assert tokens[1..][|tokens| - 2] == tokens[|tokens| - 1];
      }
      NewlineCountFirst(tokens);
    }
  }

  /** The number of tokens that end a line. */
  function NewlineCount(tokens: seq<Token>): nat
    decreases |tokens|
  {
    if tokens == [] then 0 else NewlineCount(tokens[..|tokens| - 1]) + (if EndsLine(tokens[|tokens| - 1]) then 1 else 0)
  }

  lemma {:induction false} NewlineCountFirst(tokens: seq<Token>)
    requires tokens != []
    ensures NewlineCount(tokens) == (if EndsLine(tokens[0]) then 1 else 0) + NewlineCount(tokens[1..])
    decreases |tokens|
  {
    if |tokens| > 1 {
      var front := tokens[..|tokens| - 1];
      NewlineCountFirst(front);
      assert front[1..] == tokens[1..][..|tokens[1..]| - 1];
    }
  }

  // ----- The tally -----

  /** The category a line is counted under. */
  datatype Category = CodeLine | DocLine | StringLine | EmptyLine

  /** The category priority: code, else string, else documentation, else empty. */
  function Priority(marks: set<Mark>): Category {
    if Code in marks then CodeLine
    else if Str in marks then StringLine
    else if Doc in marks then DocLine
    else EmptyLine
  }

  /** The mark of a check in the loop over `("d", "s", "c")`. */
  function CheckCategory(m: Mark): Category {
    match m
    case Doc => DocLine
    case Str => StringLine
    case Code => CodeLine
  }

  /** The inner loop of `get_lines`: the last of `d`, `s`, `c` the line holds wins, else `e`. */
  method ClassifyLine(marks: set<Mark>) returns (c: Category)
    ensures c == Priority(marks)
  {
    var checks := [Doc, Str, Code];
    c := EmptyLine;
    var i := 0;
    while i < |checks|
      invariant 0 <= i <= |checks|
      invariant i == 0 ==> c == EmptyLine
      invariant i == 1 ==> c == (if Doc in marks then DocLine else EmptyLine)
      invariant i == 2 ==> c == (if Str in marks then StringLine else if Doc in marks then DocLine else EmptyLine)
      invariant i == 3 ==> c == Priority(marks)
    {
      if checks[i] in marks {
        c := CheckCategory(checks[i]);
      }
      i := i + 1;
    }
  }

  /** The four counts of `get_lines`. */
  datatype Counts = Counts(code: nat, documentation: nat, empty: nat, str: nat)

  function Increment(n: Counts, c: Category): Counts {
    match c
    case CodeLine => n.(code := n.code + 1)
    case DocLine => n.(documentation := n.documentation + 1)
    case StringLine => n.(str := n.str + 1)
    case EmptyLine => n.(empty := n.empty + 1)
  }

  function Total(n: Counts): nat {
    n.code + n.documentation + n.empty + n.str
  }

  /** The counts after tallying `groups`. */
  function Tally(groups: seq<set<Mark>>): Counts
    decreases |groups|
  {
    if groups == [] then Counts(0, 0, 0, 0)
    else Increment(Tally(groups[..|groups| - 1]), Priority(groups[|groups| - 1]))
  }

  /** The number of groups counted under `c`: the reference the tally is checked against. */
  function CountOf(groups: seq<set<Mark>>, c: Category): nat
    decreases |groups|
  {
    if groups == [] then 0
    else CountOf(groups[..|groups| - 1], c) + (if Priority(groups[|groups| - 1]) == c then 1 else 0)
  }

  /** Each group increments exactly one count, so the counts add up to the number of groups. */
  lemma {:induction false} TallyTotal(groups: seq<set<Mark>>)
    ensures Total(Tally(groups)) == |groups|
    decreases |groups|
  {
    if groups != [] {
      TallyTotal(groups[..|groups| - 1]);
    }
  }

  /** Each count is the number of groups of its category. */
  lemma {:induction false} TallyCounts(groups: seq<set<Mark>>)
    ensures Tally(groups) == Counts(CountOf(groups, CodeLine), CountOf(groups, DocLine),
                                    CountOf(groups, EmptyLine), CountOf(groups, StringLine))
    decreases |groups|
  {
    if groups != [] {
      TallyCounts(groups[..|groups| - 1]);
    }
  }

  /** The tally loop of `get_lines`. */
  method TallyLoop(groups: seq<set<Mark>>) returns (n: Counts)
    ensures n == Tally(groups)
  {
    n := Counts(0, 0, 0, 0);
    var i := 0;
    while i < |groups|
      invariant 0 <= i <= |groups|
      invariant n == Tally(groups[..i])
    {
      assert groups[..i + 1][..i] == groups[..i];
      var c := ClassifyLine(groups[i]);
      n := Increment(n, c);
      i := i + 1;
    }
    assert groups[..i] == groups;
  }

  /** The dictionary `get_lines` returns. */
  datatype LineCounts = LineCounts(language: string, code: nat, documentation: nat, empty: nat, str: nat)

  /** The language reported: the XML dialect when the lexer is an XML or Genshi one and a dialect
      is found, else the lexer's name. */
  function Language(name: string, xmlDialect: Option<string>): string {
    if (Contains(Lower(name), "xml") || name == "Genshi") && xmlDialect.Some? then xmlDialect.value else name
  }

  /** `get_lines` for the lexer guessed from the path and the text (None when there is none);
      `xmlDialect` is what the XML dialect detection finds. */
  function Lines(lexer: Option<Lexer>, xmlDialect: Option<string>): Option<LineCounts> {
    match lexer
    case None => None
    case Some(lx) =>
      var n := Tally(LineParts(lx.tokens, lx.isWhite));
      Some(LineCounts(Language(lx.name, xmlDialect), n.code, n.documentation, n.empty, n.str))
  }

  /** get_lines. */
  method GetLines(lexer: Option<Lexer>, xmlDialect: Option<string>) returns (r: Option<LineCounts>)
    ensures r == Lines(lexer, xmlDialect)
  {
    if lexer.None? {
      return None;
    }
    var lx := lexer.value;
    var language := Language(lx.name, xmlDialect);
    var groups := LinePartsLoop(lx.tokens, lx.isWhite);
    var n := TallyLoop(groups);
    r := Some(LineCounts(language, n.code, n.documentation, n.empty, n.str));
  }

  /** Without a lexer nothing is counted. */
  lemma NoLexerNoCounts(lexer: Option<Lexer>, xmlDialect: Option<string>)
    ensures Lines(lexer, xmlDialect).None? <==> lexer.None?
  {}

  /** With a lexer, the four counts add up to the number of lines yielded, which is between the
      number of newline tokens and one more. */
  lemma LinesTotal(lx: Lexer, xmlDialect: Option<string>)
    ensures var r := Lines(Some(lx), xmlDialect).value;
            var total := r.code + r.documentation + r.empty + r.str;
            && total == |LineParts(lx.tokens, lx.isWhite)|
            && NewlineCount(lx.tokens) <= total <= NewlineCount(lx.tokens) + 1
  {
    var groups := LineParts(lx.tokens, lx.isWhite);
    TallyTotal(groups);
    var none: set<Mark> := {};
    assert groups == Groups(lx.tokens, lx.isWhite, none);
    GroupCount(lx.tokens, lx.isWhite, none);
    assert NewlineCount(lx.tokens) <= |groups| <= NewlineCount(lx.tokens) + 1;
  }

  /** A line with a comment and code counts as code; a comment alone as documentation; a blank
      line as empty. */
  lemma TallyExample(isWhite: string -> bool)
    requires isWhite("\n") && !isWhite("x = 1  ")
    ensures var tokens := [Token(Other, "x = 1  "), Token(Comment, "# one\n"), Token(Comment, "# two\n"), Token(Other, "\n")];
            Tally(LineParts(tokens, isWhite)) == Counts(1, 1, 1, 0)
  {
    var t0, t1, t2, t3 := Token(Other, "x = 1  "), Token(Comment, "# one\n"), Token(Comment, "# two\n"), Token(Other, "\n");
    assert !EndsLine(t0) by { assert t0.text[|t0.text| - 1] == ' '; }
    assert EndsLine(t1) && EndsLine(t2) && EndsLine(t3);
    var tokens := [t0, t1, t2, t3];
    assert tokens[1..] == [t1, t2, t3] && [t1, t2, t3][1..] == [t2, t3] && [t2, t3][1..] == [t3];
    var g3 := Groups([t3], isWhite, {});
    assert g3 == [{}] by {
      assert [t3][0] == t3 && [t3][1..] == [];
      assert TokenMarks(t3, isWhite) == {};
      assert {} + TokenMarks(t3, isWhite) == {};
      assert Groups([], isWhite, {}) == [];
    }
    var g2 := Groups([t2, t3], isWhite, {});
    assert g2 == [{Doc}] + g3 by {
      assert {} + TokenMarks(t2, isWhite) == {Doc};
    }
    var g1 := Groups([t1, t2, t3], isWhite, {Code});
    assert g1 == [{Code, Doc}] + g2 by {
      assert {Code} + TokenMarks(t1, isWhite) == {Code, Doc};
    }
    assert LineParts(tokens, isWhite) == g1 by {
      assert {} + TokenMarks(t0, isWhite) == {Code};
    }
    var groups := [{Code, Doc}, {Doc}, {}];
    assert LineParts(tokens, isWhite) == groups;
    var g: set<Mark>, d: set<Mark> := {Code, Doc}, {Doc};
    assert Priority({}) == EmptyLine && Priority(d) == DocLine && Priority(g) == CodeLine;
    assert [g][..0] == [];
    assert Tally([g]) == Counts(1, 0, 0, 0);
    assert [g, d][..1] == [g];
    assert Tally([g, d]) == Counts(1, 1, 0, 0);
    assert groups[..2] == [g, d];
  }
}
