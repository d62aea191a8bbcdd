/** Text as the programs handle it: splitting at line feeds, joining, stripping, searching. */
module Text {

  datatype Option<+T> = None | Some(value: T)

  const NL: string := "\n"

  lemma Assoc<T>(a: seq<T>, b: seq<T>, c: seq<T>)
    ensures a + b + c == a + (b + c)
  {
  }

  lemma SliceOfSlice<T>(s: seq<T>, k: nat, m: nat, i: nat, j: nat)
    requires k <= m <= |s| && i <= j <= m - k
    ensures s[k..m][i..j] == s[k + i..k + j]
  {
    forall x | 0 <= x < j - i ensures s[k..m][i..j][x] == s[k + i..k + j][x] {
      assert s[k..m][i..j][x] == s[k..m][i + x];
    }
  }

  ghost predicate NoNewline(s: string) {
    '\n' !in s
  }

  /** The position of the first line feed, or the length of the text when there is none. */
  function FirstNewline(s: string): (k: nat)
    ensures k <= |s| && NoNewline(s[..k])
    ensures k < |s| ==> s[k] == '\n'
  {
    if s == "" || s[0] == '\n' then 0
    else
      var k := FirstNewline(s[1..]);
      assert s[..k + 1] == [s[0]] + s[1..][..k];
      k + 1
  }

  /** The pieces between line feeds; always at least one. */
  function Split(s: string): (lines: seq<string>)
    ensures lines != [] && forall l :: l in lines ==> NoNewline(l)
    decreases |s|
  {
    var k := FirstNewline(s);
    if k == |s| then
      assert s[..k] == s;
      [s]
    else [s[..k]] + Split(s[k + 1..])
  }

  function Join(lines: seq<string>): string {
    if lines == [] then ""
    else if |lines| == 1 then lines[0]
    else lines[0] + NL + Join(lines[1..])
  }

  /** Python's splitlines on text whose only line boundary is the line feed. */
  function SplitLines(s: string): (lines: seq<string>)
    ensures forall l :: l in lines ==> NoNewline(l)
  {
    if s == "" then []
    else if s[|s| - 1] == '\n' then Split(s[..|s| - 1])
    else Split(s)
  }

  lemma FirstNewlineOf(a: string, b: string)
    requires NoNewline(a)
    ensures FirstNewline(a + b) == |a| + FirstNewline(b)
  {
    if a == "" {
      assert a + b == b;
    } else {
      assert (a + b)[0] == a[0] && (a + b)[1..] == a[1..] + b;
      assert a[0] in a;
      forall c | c in a[1..] ensures c in a {}
      FirstNewlineOf(a[1..], b);
    }
  }

  lemma SplitStep(a: string, b: string)
    requires NoNewline(a)
    ensures Split(a + NL + b) == [a] + Split(b)
  {
    var s := a + NL + b;
    assert s == a + (NL + b);
    FirstNewlineOf(a, NL + b);
    assert FirstNewline(s) == |a|;
    assert s[..|a|] == a && s[|a| + 1..] == b;
  }

  lemma {:induction false} SplitConcat(a: string, b: string)
    ensures Split(a + NL + b) == Split(a) + Split(b)
    decreases |a|
  {
    var k := FirstNewline(a);
    if k == |a| {
      assert a[..k] == a;
      SplitOne(a);
      SplitStep(a, b);
    } else {
      var head, tail := a[..k], a[k + 1..];
      assert a == head + NL + tail;
      Assoc(head + NL, tail + NL, b);
      Assoc(head + NL, tail, NL);
      SplitStep(head, tail + NL + b);
      SplitStep(head, tail);
      SplitConcat(tail, b);
      Assoc([head], Split(tail), Split(b));
    }
  }

  lemma SplitOne(s: string)
    requires NoNewline(s)
    ensures Split(s) == [s]
  {
    FirstNewlineOf(s, "");
    assert s + "" == s;
  }

  lemma {:induction false} JoinConcat(a: seq<string>, b: seq<string>)
    requires a != [] && b != []
    ensures Join(a + b) == Join(a) + NL + Join(b)
  {
    if |a| == 1 {
      assert (a + b)[1..] == b;
    } else {
      assert (a + b)[1..] == a[1..] + b && (a + b)[0] == a[0];
      JoinConcat(a[1..], b);
      assert Join(a + b) == a[0] + NL + (Join(a[1..]) + NL + Join(b));
      assert a[0] + NL + (Join(a[1..]) + NL + Join(b)) == (a[0] + NL + Join(a[1..])) + NL + Join(b);
    }
  }

  /** Joining undoes splitting. */
  lemma {:induction false} JoinSplit(s: string)
    ensures Join(Split(s)) == s
    decreases |s|
  {
    var k := FirstNewline(s);
    if k < |s| {
      var head, tail := s[..k], s[k + 1..];
      assert s == head + NL + tail;
      assert Split(s) == [head] + Split(tail) && Join([head]) == head;
      hide Join, Split, FirstNewline;
      JoinSplit(tail);
      JoinConcat([head], Split(tail));
    }
  }

  /** Splitting undoes joining newline-free lines. */
  lemma {:induction false} SplitJoin(lines: seq<string>)
    requires lines != [] && forall l :: l in lines ==> NoNewline(l)
    ensures Split(Join(lines)) == lines
  {
    SplitOne(lines[0]);
    if |lines| > 1 {
      SplitJoin(lines[1..]);
      SplitConcat(lines[0], Join(lines[1..]));
    }
  }

  // ---------------------------------------------------------------- stripping

  /** White space of Python's str.strip and of \s. */
  predicate PySpace(c: char) {
    var u := c as int;
    || 9 <= u <= 13 || 28 <= u <= 32 || u == 0x85 || u == 0xA0 || u == 0x1680
    || 0x2000 <= u <= 0x200A || u == 0x2028 || u == 0x2029 || u == 0x202F || u == 0x205F || u == 0x3000
  }

  /** White space of JavaScript's String.prototype.trim. */
  predicate JsSpace(c: char) {
    var u := c as int;
    || 9 <= u <= 13 || u == 32 || u == 0xA0 || u == 0x1680
    || 0x2000 <= u <= 0x200A || u == 0x2028 || u == 0x2029 || u == 0x202F || u == 0x205F || u == 0x3000 || u == 0xFEFF
  }

  predicate Blank(s: string, ws: char -> bool) {
    forall c | c in s :: ws(c)
  }

  /** How many characters of white space the text starts with. */
  function LeadingBlanks(s: string, ws: char -> bool): (k: nat)
    ensures k <= |s|
  {
    if s != "" && ws(s[0]) then 1 + LeadingBlanks(s[1..], ws) else 0
  }

  function TrailingBlanks(s: string, ws: char -> bool): (k: nat)
    ensures k <= |s|
  {
    if s != "" && ws(s[|s| - 1]) then 1 + TrailingBlanks(s[..|s| - 1], ws) else 0
  }

  function LStrip(s: string, ws: char -> bool): string {
    s[LeadingBlanks(s, ws)..]
  }

  function RStrip(s: string, ws: char -> bool): string {
    s[..|s| - TrailingBlanks(s, ws)]
  }

  lemma {:induction false} LeadingBlanksBlank(s: string, ws: char -> bool)
    ensures var k := LeadingBlanks(s, ws); Blank(s[..k], ws) && (k < |s| ==> !ws(s[k]))
  {
    if s != "" && ws(s[0]) {
      LeadingBlanksBlank(s[1..], ws);
      var k := LeadingBlanks(s[1..], ws);
      assert s[..k + 1] == [s[0]] + s[1..][..k];
    }
  }

  lemma {:induction false} TrailingBlanksBlank(s: string, ws: char -> bool)
    ensures var k := |s| - TrailingBlanks(s, ws); Blank(s[k..], ws) && (k > 0 ==> !ws(s[k - 1]))
  {
    if s != "" && ws(s[|s| - 1]) {
      var init := s[..|s| - 1];
      TrailingBlanksBlank(init, ws);
      var k := |init| - TrailingBlanks(init, ws);
      assert s[k..] == init[k..] + [s[|s| - 1]];
    }
  }

  function Strip(s: string, ws: char -> bool): string {
    RStrip(LStrip(s, ws), ws)
  }

  /** No white space at either end. */
  ghost predicate Stripped(s: string, ws: char -> bool) {
    s != "" ==> !ws(s[0]) && !ws(s[|s| - 1])
  }

  lemma Rejoin(s: string, k: nat)
    requires k <= |s|
    ensures s == s[..k] + s[k..]
  {
  }

  lemma StrippedFirst(l: string, n: nat)
    requires 0 < n <= |l|
    ensures l[..n][0] == l[0]
  {
  }

  /** Stripping removes exactly the white space at the ends. */
  lemma StripEnds(s: string, ws: char -> bool) returns (pre: string, post: string)
    ensures s == pre + Strip(s, ws) + post
    ensures Blank(pre, ws) && Blank(post, ws) && Stripped(Strip(s, ws), ws)
  {
    LeadingBlanksBlank(s, ws);
    var k := LeadingBlanks(s, ws);
    var l := s[k..];
    TrailingBlanksBlank(l, ws);
    var n := |l| - TrailingBlanks(l, ws);
    assert Strip(s, ws) == l[..n];
    pre, post := s[..k], l[n..];
    hide Strip, LStrip, RStrip, LeadingBlanks, TrailingBlanks, Blank;
    Rejoin(s, k);
    Rejoin(l, n);
    Assoc(pre, l[..n], post);
    if n > 0 {
      StrippedFirst(l, n);
    }
  }

  lemma StripParts(s: string, ws: char -> bool) returns (pre: string, post: string)
    ensures s == pre + Strip(s, ws) + post
  {
    pre, post := StripEnds(s, ws);
  }

  lemma StripStripped(s: string, ws: char -> bool)
    requires Stripped(s, ws)
    ensures Strip(s, ws) == s && LStrip(s, ws) == s && RStrip(s, ws) == s
  {
  }

  // ---------------------------------------------------------------- searching

  predicate StartsWith(s: string, p: string) {
    |p| <= |s| && s[..|p|] == p
  }

  /** p occurs in s at position i. */
  predicate OccursAt(s: string, p: string, i: nat) {
    i + |p| <= |s| && s[i..i + |p|] == p
  }

  predicate ContainsText(s: string, p: string) {
    exists i: nat | i <= |s| :: OccursAt(s, p, i)
  }

  function LowerChar(c: char): char {
    if 'A' <= c <= 'Z' then (c as int + 32) as char else c
  }

  function Lower(s: string): (r: string)
    ensures |r| == |s| && forall i :: 0 <= i < |s| ==> r[i] == LowerChar(s[i])
  {
    if s == "" then "" else [LowerChar(s[0])] + Lower(s[1..])
  }

  /** r is one contiguous stretch of s. */
  ghost predicate Within(r: string, s: string) {
    exists i, j :: 0 <= i <= j <= |s| && r == s[i..j]
  }

  lemma WithinParts(a: string, r: string, b: string)
    ensures Within(r, a + r + b)
  {
    assert r == (a + r + b)[|a|..|a| + |r|];
  }

  lemma WithinTransitive(a: string, b: string, c: string)
    requires Within(a, b) && Within(b, c)
    ensures Within(a, c)
  {
    var i, j :| 0 <= i <= j <= |b| && a == b[i..j];
    var k, m :| 0 <= k <= m <= |c| && b == c[k..m];
    SliceOfSlice(c, k, m, i, j);
  }

  lemma StripWithin(s: string, ws: char -> bool)
    ensures Within(Strip(s, ws), s)
  {
    var pre, post := StripEnds(s, ws);
    WithinParts(pre, Strip(s, ws), post);
  }

  // ---------------------------------------------------------------- joined lines

  lemma {:induction false} JoinEnds(lines: seq<string>)
    requires lines != []
    ensures StartsWith(Join(lines), lines[0])
    ensures var last := lines[|lines| - 1];
            |last| <= |Join(lines)| && Join(lines)[|Join(lines)| - |last|..] == last
  {
    if |lines| > 1 {
      JoinEnds(lines[1..]);
      assert lines[1..][|lines| - 2] == lines[|lines| - 1];
      var last, rest := lines[|lines| - 1], Join(lines[1..]);
      var pre := lines[0] + NL;
      assert (pre + rest)[|pre + rest| - |last|..] == rest[|rest| - |last|..];
    }
  }

  /** Lines whose ends are not blank come back from the text they are joined into. */
  lemma SplitLinesJoin(lines: seq<string>)
    requires lines != [] && forall l :: l in lines ==> NoNewline(l)
    requires lines[|lines| - 1] != ""
    ensures SplitLines(Join(lines)) == lines
  {
    JoinEnds(lines);
    SplitJoin(lines);
    var text, last := Join(lines), lines[|lines| - 1];
    assert text[|text| - 1] == text[|text| - |last|..][|last| - 1] == last[|last| - 1];
    assert last in lines && last[|last| - 1] in last;
  }

  lemma JoinSplitLines(s: string)
    ensures Within(Join(SplitLines(s)), s)
  {
    if s != "" {
      if s[|s| - 1] == '\n' {
        JoinSplit(s[..|s| - 1]);
        assert s[..|s| - 1] == s[0..|s| - 1];
      } else {
        JoinSplit(s);
        assert s == s[0..|s|];
      }
    } else {
      assert "" == s[0..0];
    }
  }

  lemma JoinSliceWithin(lines: seq<string>, i: nat, j: nat)
    requires i <= j <= |lines|
    ensures Within(Join(lines[i..j]), Join(lines))
  {
    if i == j {
      assert Join(lines)[0..0] == "";
    } else {
      JoinSuffixWithin(lines[..j], i);
      assert lines[..j][i..] == lines[i..j];
      if j == |lines| {
        assert lines[..j] == lines;
      } else {
        JoinConcat(lines[..j], lines[j..]);
        assert lines == lines[..j] + lines[j..];
        assert Join(lines) == "" + Join(lines[..j]) + (NL + Join(lines[j..])) by {
          Assoc(Join(lines[..j]), NL, Join(lines[j..]));
          assert "" + Join(lines[..j]) == Join(lines[..j]);
        }
        WithinParts("", Join(lines[..j]), NL + Join(lines[j..]));
        WithinTransitive(Join(lines[i..j]), Join(lines[..j]), Join(lines));
      }
    }
  }

  lemma JoinSuffixWithin(lines: seq<string>, i: nat)
    requires i < |lines|
    ensures Within(Join(lines[i..]), Join(lines))
  {
    hide Join;
    if i == 0 {
      assert lines[i..] == lines && Join(lines)[0..|Join(lines)|] == Join(lines);
    } else {
      var a, b := lines[..i], lines[i..];
      JoinConcat(a, b);
      assert lines == a + b;
      hide Within;
      WithinParts(Join(a) + NL, Join(b), "");
      assert Join(a) + NL + Join(b) + "" == Join(a) + NL + Join(b);
    }
  }

  lemma StripSideWithin(s: string, ws: char -> bool)
    ensures Within(LStrip(s, ws), s) && Within(RStrip(s, ws), s)
  {
    assert LStrip(s, ws) == s[LeadingBlanks(s, ws)..|s|];
    assert RStrip(s, ws) == s[0..|s| - TrailingBlanks(s, ws)];
  }
}
