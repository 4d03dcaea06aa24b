/**
 * `_guess_encoding`: the encoding a Python 2 source file declares, found from
 * a UTF-8 byte-order mark or from a coding comment on one of its first two
 * lines (PEP 263). Source text is a Python 2 byte string, one `char` per byte.
 */
module EncodingGuess {
  import opened Wrappers
  import opened PyStrings

  /** The UTF-8 byte-order mark `'\xef\xbb\xbf'`. */
  const Bom: string := ['\U{EF}', '\U{BB}', '\U{BF}']

  /** `\s` of a byte-string pattern: space, tab, newline, return, form feed, vertical tab. */
  predicate IsSpace(c: char)
  {
    c == ' ' || c == '\t' || c == '\n' || c == '\r' || c == '\U{0C}' || c == '\U{0B}'
  }

  /** `[-\w.]` of a byte-string pattern. */
  predicate IsNameChar(c: char)
  {
    ('a' <= c <= 'z') || ('A' <= c <= 'Z') || ('0' <= c <= '9') || c == '_' || c == '-' || c == '.'
  }

  /** `\s*` from index `i`: the end of the whitespace run. */
  function SkipSpaces(line: string, i: nat): (j: nat)
    requires i <= |line|
    ensures i <= j <= |line|
    ensures forall k :: i <= k < j ==> IsSpace(line[k])
    ensures j < |line| ==> !IsSpace(line[j])
    decreases |line| - i
  {
    if i < |line| && IsSpace(line[i]) then SkipSpaces(line, i + 1) else i
  }

  /** `[-\w.]+`, greedy, from index `i`: the end of the name run. */
  function NameEnd(line: string, i: nat): (j: nat)
    requires i <= |line|
    ensures i <= j <= |line|
    ensures forall k :: i <= k < j ==> IsNameChar(line[k])
    ensures j < |line| ==> !IsNameChar(line[j])
    decreases |line| - i
  {
    if i < |line| && IsNameChar(line[i]) then NameEnd(line, i + 1) else i
  }

  /** `coding[:=]\s*[-\w.]+` matches at index `p`. */
  predicate DeclAt(line: string, p: nat)
  {
    && p + 7 <= |line|
    && line[p..p + 6] == "coding"
    && (line[p + 6] == ':' || line[p + 6] == '=')
    && SkipSpaces(line, p + 7) < |line|
    && IsNameChar(line[SkipSpaces(line, p + 7)])
  }

  /**
   * The greedy `.*` before `coding` makes the match use the last position in
   * `[lo, hi)` where the declaration matches.
   */
  function LastDecl(line: string, lo: nat, hi: nat): (r: Option<nat>)
    requires hi <= |line|
    ensures r.Some? ==> lo <= r.value < hi && DeclAt(line, r.value)
                        && forall p :: r.value < p < hi ==> !DeclAt(line, p)
    ensures r.None? ==> forall p :: lo <= p < hi ==> !DeclAt(line, p)
    decreases hi
  {
    if hi <= lo then None
    else if DeclAt(line, hi - 1) then Some(hi - 1)
    else LastDecl(line, lo, hi - 1)
  }

  /** Only whitespace precedes index `i`, and a `#` sits there. */
  predicate CommentStart(line: string, i: nat)
  {
    i < |line| && line[i] == '#' && forall k :: 0 <= k < i ==> IsSpace(line[k])
  }

  /** `\s*#` can start its `#` at one place only. */
  lemma CommentStartUnique(line: string, i: nat)
    requires CommentStart(line, i)
    ensures i == SkipSpaces(line, 0)
  {
    var j := SkipSpaces(line, 0);
    assert !(i < j) && !(j < i);
  }

  /**
   * `_ENCODING_RGX.match(line)` and its group 1: optional whitespace, a `#`,
   * then the last `coding:` or `coding=` followed by optional whitespace and
   * a non-empty run of name characters; the group is that whole run.
   */
  function MatchCoding(line: string): (r: Option<string>)
    requires '\n' !in line  // the pattern's `.` stops at a line break; the lines examined have none
    ensures r.Some? ==> r.value != [] && forall k :: 0 <= k < |r.value| ==> IsNameChar(r.value[k])
    ensures r.Some? <==> exists i: nat, p: nat :: CommentStart(line, i) && i < p && DeclAt(line, p)
    ensures r.Some? ==> exists p: nat :: && SkipSpaces(line, 0) < p && DeclAt(line, p)
                                         && (forall p': nat :: p < p' ==> !DeclAt(line, p'))
                                         && r.value == line[SkipSpaces(line, p + 7)..NameEnd(line, SkipSpaces(line, p + 7))]
  {
    var i := SkipSpaces(line, 0);
    if i < |line| && line[i] == '#' then
      match LastDecl(line, i + 1, |line|)
      case None =>
        NoDeclAfterComment(line);
        None
      case Some(p) =>
        assert CommentStart(line, i);
        var q := SkipSpaces(line, p + 7);
        var name := line[q..NameEnd(line, q)];
        NameRun(line, q);
        Some(name)
    else
      NoCommentStart(line);
      None
  }

  /** Without a `#` after the leading whitespace, no comment starts. */
  lemma NoCommentStart(line: string)
    requires !(SkipSpaces(line, 0) < |line| && line[SkipSpaces(line, 0)] == '#')
    ensures forall i: nat :: !CommentStart(line, i)
  {
    forall i: nat | CommentStart(line, i) ensures false {
      CommentStartUnique(line, i);
    }
  }

  /** With no declaration after the comment's `#`, the pattern does not match. */
  lemma NoDeclAfterComment(line: string)
    requires SkipSpaces(line, 0) < |line|
    requires LastDecl(line, SkipSpaces(line, 0) + 1, |line|).None?
    ensures !exists i: nat, p: nat :: CommentStart(line, i) && i < p && DeclAt(line, p)
  {
    forall i: nat, p: nat | CommentStart(line, i) && i < p && DeclAt(line, p) ensures false {
      CommentStartUnique(line, i);
    }
  }

  /** The name run from `q` is a non-empty run of name characters when one starts there. */
  lemma NameRun(line: string, q: nat)
    requires q < |line| && IsNameChar(line[q])
    ensures var name := line[q..NameEnd(line, q)];
            name != [] && forall k :: 0 <= k < |name| ==> IsNameChar(name[k])
  {
    var name := line[q..NameEnd(line, q)];
    assert forall k :: 0 <= k < |name| ==> name[k] == line[q + k];
  }

  /** `string.split('\n', 2)[:2]`: the first line and, when there is one, the second. */
  function FirstTwoLines(s: string): (lines: seq<string>)
    ensures 1 <= |lines| <= 2
    ensures |lines| == 1 <==> '\n' !in s
    ensures forall k :: 0 <= k < |lines| ==> '\n' !in lines[k]
    ensures |lines[0]| <= |s| && s[..|lines[0]|] == lines[0]
    ensures |lines| == 1 ==> lines[0] == s
    ensures |lines| == 2 ==> && |lines[0]| < |s| && s[|lines[0]|] == '\n'
                             && var rest := s[|lines[0]| + 1..];
                                && |lines[1]| <= |rest| && rest[..|lines[1]|] == lines[1]
                                && (|lines[1]| == |rest| || rest[|lines[1]|] == '\n')
  {
    var i := FindFrom(s, "\n", 0);
    if i == -1 then
      NoBreakFound(s);
      [s]
    else
      var rest := s[i + 1..];
      NewlineAt(s, i);
      BreakFound(s, i);
      var j := FindFrom(rest, "\n", 0);
      if j == -1 then
        NoBreakFound(rest);
        [s[..i], rest]
      else
        BreakFound(rest, j);
        NewlineAt(rest, j);
        [s[..i], rest[..j]]
  }

  /** `find` finding no line break means there is none. */
  lemma NoBreakFound(s: string)
    requires FindFrom(s, "\n", 0) == -1
    ensures '\n' !in s
  {
    forall k | 0 <= k < |s| ensures s[k] != '\n' {
      NewlineAt(s, k);
    }
  }

  /** What precedes the first line break found by `find` holds none. */
  lemma BreakFound(s: string, i: int)
    requires i == FindFrom(s, "\n", 0) && i != -1
    ensures i < |s| && '\n' !in s[..i]
  {
    forall k | 0 <= k < i ensures s[..i][k] != '\n' {
      NewlineAt(s, k);
    }
  }

  /** The index of the first line from `i` on whose coding comment matches, or -1. */
  function FirstDeclaredFrom(lines: seq<string>, i: nat): (k: int)
    requires i <= |lines|
    requires forall j :: 0 <= j < |lines| ==> '\n' !in lines[j]
    ensures k == -1 || (i <= k < |lines| && MatchCoding(lines[k]).Some?)
    ensures forall j :: i <= j < |lines| && (k == -1 || j < k) ==> MatchCoding(lines[j]).None?
    decreases |lines| - i
  {
    if i == |lines| then -1
    else if MatchCoding(lines[i]).Some? then i
    else FirstDeclaredFrom(lines, i + 1)
  }

  /** The loop over the lines: the first whose coding comment matches gives the result. */
  function FirstDeclared(lines: seq<string>): (r: Option<string>)
    requires forall k :: 0 <= k < |lines| ==> '\n' !in lines[k]
    ensures r.None? <==> forall k :: 0 <= k < |lines| ==> MatchCoding(lines[k]).None?
    ensures r.Some? ==> exists k :: 0 <= k < |lines| && r == MatchCoding(lines[k])
                                    && forall k' :: 0 <= k' < k ==> MatchCoding(lines[k']).None?
  {
    var k := FirstDeclaredFrom(lines, 0);
    if k == -1 then None else MatchCoding(lines[k])
  }

  /** `_guess_encoding(string)`: a byte-order mark wins; else the first coding comment of the first two lines. */
  function GuessEncoding(s: string): (r: Option<string>)
    ensures |s| >= 3 && s[..3] == Bom ==> r == Some("UTF-8")
    ensures !(|s| >= 3 && s[..3] == Bom) ==>
              var lines := FirstTwoLines(s);
              && (r.None? <==> forall k :: 0 <= k < |lines| ==> MatchCoding(lines[k]).None?)
              && (r.Some? ==> exists k :: && 0 <= k < |lines| && r == MatchCoding(lines[k])
                                          && forall k' :: 0 <= k' < k ==> MatchCoding(lines[k']).None?)
  {
    if |s| >= 3 && s[..3] == Bom then Some("UTF-8")
    else FirstDeclared(FirstTwoLines(s))
  }

  lemma NewlineAt(s: string, k: nat)
    ensures OccursAt(s, "\n", k) <==> k < |s| && s[k] == '\n'
  {
    if k < |s| && s[k] == '\n' {
      assert s[k..k + 1] == [s[k]];
    }
  }

  lemma {:induction false} FirstNewline(a: string, b: string)
    requires '\n' !in a
    ensures FindFrom(a + "\n" + b, "\n", 0) == |a|
  {
    var s := a + "\n" + b;
    NewlineAt(s, |a|);
    forall k | 0 <= k < |a| ensures !OccursAt(s, "\n", k) {
      NewlineAt(s, k);
      assert s[k] == a[k];
    }
  }

  lemma {:induction false} NoNewline(a: string)
    requires '\n' !in a
    ensures FindFrom(a, "\n", 0) == -1
  {
    forall k | 0 <= k ensures !OccursAt(a, "\n", k) {
      NewlineAt(a, k);
    }
  }

  /** A line break within the first three characters rules out the byte-order mark. */
  lemma ShortFirstLineNoBom(l1: string, rest: string)
    requires |l1| < 3
    ensures !(|l1 + "\n" + rest| >= 3 && (l1 + "\n" + rest)[..3] == Bom)
  {
    var s := l1 + "\n" + rest;
    assert |s| >= 3 ==> s[..3][|l1|] == '\n';
  }

  /** A text without a line break: its one line decides the guess. */
  lemma GuessOfOneLine(l: string)
    requires '\n' !in l
    ensures GuessEncoding(l) == if |l| >= 3 && l[..3] == Bom then Some("UTF-8") else MatchCoding(l)
  {
    assert FirstTwoLines(l) == [l];
  }

  /** A text with exactly one line break: both of its lines are examined. */
  lemma GuessOfLastLine(l1: string, l2: string)
    requires '\n' !in l1 && '\n' !in l2
    ensures GuessEncoding(l1 + "\n" + l2)
         == if |l1| >= 3 && l1[..3] == Bom then Some("UTF-8") else FirstDeclared([l1, l2])
  {
    var s := l1 + "\n" + l2;
    FirstNewline(l1, l2);
    assert s[..|l1|] == l1;
    assert s[|l1| + 1..] == l2;
    NoNewline(l2);
    BomOfFirstLine(l1, l2);
  }

  /** The first two lines of a text that has at least two line breaks. */
  lemma TwoLinesOf(l1: string, l2: string, rest: string)
    requires '\n' !in l1 && '\n' !in l2
    ensures FirstTwoLines(l1 + "\n" + l2 + "\n" + rest) == [l1, l2]
  {
    var s := l1 + "\n" + l2 + "\n" + rest;
    assert s == l1 + "\n" + (l2 + "\n" + rest);
    FirstNewline(l1, l2 + "\n" + rest);
    assert s[|l1| + 1..] == l2 + "\n" + rest;
    FirstNewline(l2, rest);
    assert s[..|l1|] == l1;
    assert (l2 + "\n" + rest)[..|l2|] == l2;
  }

  /** Whether the byte-order mark is present depends on the first line only. */
  lemma BomOfFirstLine(l1: string, rest: string)
    requires '\n' !in l1
    ensures (|l1 + "\n" + rest| >= 3 && (l1 + "\n" + rest)[..3] == Bom) <==> (|l1| >= 3 && l1[..3] == Bom)
  {
    var s := l1 + "\n" + rest;
    if |l1| >= 3 {
      assert s[..3] == l1[..3];
    } else {
      ShortFirstLineNoBom(l1, rest);
    }
  }

  /** The guess for a text with at least two line breaks, in terms of its first two lines. */
  lemma GuessOfTwoLines(l1: string, l2: string, rest: string)
    requires '\n' !in l1 && '\n' !in l2
    ensures GuessEncoding(l1 + "\n" + l2 + "\n" + rest)
         == if |l1| >= 3 && l1[..3] == Bom then Some("UTF-8") else FirstDeclared([l1, l2])
  {
    var s := l1 + "\n" + l2 + "\n" + rest;
    TwoLinesOf(l1, l2, rest);
    assert s == l1 + "\n" + (l2 + "\n" + rest);
    BomOfFirstLine(l1, l2 + "\n" + rest);
  }

  /**
   * Only the first two lines are examined: whatever follows the second line
   * break never changes the guess.
   */
  lemma OnlyFirstTwoLinesExamined(l1: string, l2: string, rest1: string, rest2: string)
    requires '\n' !in l1 && '\n' !in l2
    ensures GuessEncoding(l1 + "\n" + l2 + "\n" + rest1) == GuessEncoding(l1 + "\n" + l2 + "\n" + rest2)
  {
    GuessOfTwoLines(l1, l2, rest1);
    GuessOfTwoLines(l1, l2, rest2);
  }

  /** A source whose first line declares `coding: e` (and has no byte-order mark) is guessed as `e`. */
  lemma FirstLineDeclarationWins(l1: string, rest: string)
    requires '\n' !in l1
    requires !(|l1| >= 3 && l1[..3] == Bom)
    requires MatchCoding(l1).Some?
    ensures GuessEncoding(l1 + "\n" + rest) == MatchCoding(l1)
  {
    var s := l1 + "\n" + rest;
    FirstNewline(l1, rest);
    assert s[..|l1|] == l1;
  }
}
