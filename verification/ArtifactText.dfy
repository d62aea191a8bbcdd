/** Turning an agent's raw output into the user-facing artifact: the wrapping fence, the leading
    frontmatter and the trailing structured summary are removed.  Texts break lines at line feeds only. */
module ArtifactText {
  import opened Text

  const FENCE: string := "```"
  const DASHES: string := "---"
  const DOTS: string := "..."

  const SUMMARY_BLOCK_HINTS: seq<string> :=
    ["artifact_path", "\"summary\"", "key_messages", "key_findings", "recommended_next", "critical_assumptions"]

  function Trim(s: string): string {
    Strip(s, PySpace)
  }

  predicate InfoChar(c: char) {
    'a' <= c <= 'z' || 'A' <= c <= 'Z' || '0' <= c <= '9' || c == '_' || c == '-'
  }

  /** The info string of a line that opens a fence: three backticks, an info string, white space. */
  function FenceInfo(line: string): Option<string> {
    var l := RStrip(line, PySpace);
    if StartsWith(l, FENCE) && forall c | c in l[3..] :: InfoChar(c) then Some(l[3..]) else None
  }

  predicate HasInnerFence(inner: seq<string>) {
    exists line | line in inner :: StartsWith(LStrip(line, PySpace), FENCE)
  }

  predicate MarkdownInfo(info: string) {
    Lower(info) == "markdown" || Lower(info) == "md"
  }

  /** The first and last lines of the trimmed text fence all of it. */
  predicate Fenced(text: string) {
    var lines := SplitLines(Trim(text));
    |lines| >= 2 && Trim(lines[|lines| - 1]) == FENCE && FenceInfo(lines[0]).Some?
  }

  function Inner(text: string): (inner: seq<string>)
    requires Fenced(text)
    ensures forall l :: l in inner ==> NoNewline(l)
  {
    var lines := SplitLines(Trim(text));
    lines[1..|lines| - 1]
  }

  function Info(text: string): string
    requires Fenced(text)
  {
    FenceInfo(SplitLines(Trim(text))[0]).value
  }

  /** The text is one fence with nothing fenced inside, or a markdown fence whatever is inside. */
  predicate Wrapped(text: string) {
    Fenced(text) && (HasInnerFence(Inner(text)) ==> MarkdownInfo(Info(text)))
  }

  function StripWrappingFence(text: string): string {
    if Wrapped(text) then Trim(Join(Inner(text))) else Trim(text)
  }

  /** The first line at or after i that ends a frontmatter block. */
  function FrontmatterEnd(lines: seq<string>, i: nat): (k: nat)
    requires i <= |lines|
    ensures i <= k <= |lines|
    ensures forall j :: i <= j < k ==> Trim(lines[j]) != DASHES && Trim(lines[j]) != DOTS
    ensures k < |lines| ==> Trim(lines[k]) == DASHES || Trim(lines[k]) == DOTS
    decreases |lines| - i
  {
    if i == |lines| || Trim(lines[i]) == DASHES || Trim(lines[i]) == DOTS then i
    else FrontmatterEnd(lines, i + 1)
  }

  predicate IsNewline(c: char) {
    c == '\n'
  }

  function StripLeadingFrontmatter(text: string): string {
    var lines := SplitLines(text);
    if lines == [] || Trim(lines[0]) != DASHES then text
    else
      var k := FrontmatterEnd(lines, 1);
      if k == |lines| then text else LStrip(Join(lines[k + 1..]), IsNewline)
  }

  /** The last line before i that opens a fence, or -1. */
  function NearestOpening(lines: seq<string>, i: nat): (k: int)
    requires i <= |lines|
    ensures -1 <= k < i
    ensures k >= 0 ==> FenceInfo(Trim(lines[k])).Some?
    ensures forall j :: k < j < i ==> FenceInfo(Trim(lines[j])).None?
  {
    if i == 0 then -1
    else if FenceInfo(Trim(lines[i - 1])).Some? then i - 1
    else NearestOpening(lines, i - 1)
  }

  predicate HasHint(content: string) {
    exists hint | hint in SUMMARY_BLOCK_HINTS :: ContainsText(content, hint)
  }

  /** "structured", white space, "summary", in any letter case. */
  predicate IsLabel(line: string) {
    exists i: nat, j: nat | i <= |line| && j <= |line| ::
      OccursAt(Lower(line), "structured", i) && i + 10 < j && Blank(line[i + 10..j], PySpace)
      && OccursAt(Lower(line), "summary", j)
  }

  /** The lines without the blank ones at the end. */
  function DropBlankTail(head: seq<string>): (r: seq<string>)
    ensures r <= head && (r != [] ==> Trim(r[|r| - 1]) != "")
    ensures forall i :: |r| <= i < |head| ==> Trim(head[i]) == ""
  {
    if head != [] && Trim(head[|head| - 1]) == "" then DropBlankTail(head[..|head| - 1]) else head
  }

  function DropLabel(head: seq<string>): (r: seq<string>)
    ensures r <= head
  {
    if head != [] && IsLabel(head[|head| - 1]) then head[..|head| - 1] else head
  }

  /** The lines kept when the last lines fence a structured summary: those before its fence, without
      the blank lines and the label line in between.  None when there is no such block. */
  function SummaryHead(lines: seq<string>): (r: Option<seq<string>>)
    ensures r.Some? ==> r.value <= lines
  {
    if lines == [] || Trim(lines[|lines| - 1]) != FENCE then None
    else
      var k := NearestOpening(lines, |lines| - 1);
      if k < 0 || !HasHint(Join(lines[k + 1..|lines| - 1])) then None
      else Some(DropLabel(DropBlankTail(lines[..k])))
  }

  function StripTrailingSummary(text: string): string {
    match SummaryHead(SplitLines(RStrip(text, PySpace)))
    case None => text
    case Some(head) => RStrip(Join(head), PySpace)
  }

  function NormalizeArtifactMarkdown(text: string): string {
    Trim(StripTrailingSummary(StripLeadingFrontmatter(StripWrappingFence(text))))
  }

  /** Pops the blank lines and then one label line off the end of the kept lines. */
  method PopHead(lines: seq<string>) returns (head: seq<string>)
    ensures head == DropLabel(DropBlankTail(lines))
  {
    head := lines;
    while head != [] && Trim(head[|head| - 1]) == ""
      invariant DropBlankTail(head) == DropBlankTail(lines)
      decreases |head|
    {
      head := head[..|head| - 1];
    }
    if head != [] && IsLabel(head[|head| - 1]) {
      head := head[..|head| - 1];
    }
  }

  /** The backward scan for the fence that the last line closes. */
  method ScanSummary(lines: seq<string>) returns (result: Option<seq<string>>)
    ensures result == SummaryHead(lines)
  {
    if lines == [] || Trim(lines[|lines| - 1]) != FENCE {
      return None;
    }
    var i := |lines| - 2;
    while i >= 0
      invariant -1 <= i <= |lines| - 2
      invariant NearestOpening(lines, i + 1) == NearestOpening(lines, |lines| - 1)
    {
      if FenceInfo(Trim(lines[i])).Some? {
        if !HasHint(Join(lines[i + 1..|lines| - 1])) {
          return None;
        }
        var head := PopHead(lines[..i]);
        return Some(head);
      }
      i := i - 1;
    }
    return None;
  }

  // ---------------------------------------------------------------- nothing is invented

  lemma UnwrapWithin(text: string)
    ensures Within(StripWrappingFence(text), text)
  {
    StripWithin(text, PySpace);
    if Wrapped(text) {
      var lines, body := SplitLines(Trim(text)), Join(Inner(text));
      StripWithin(body, PySpace);
      JoinSliceWithin(lines, 1, |lines| - 1);
      JoinSplitLines(Trim(text));
      WithinTransitive(Trim(body), body, Join(lines));
      WithinTransitive(Trim(body), Join(lines), Trim(text));
      WithinTransitive(Trim(body), Trim(text), text);
    }
  }

  /** The last lines of a text, joined and trimmed at the start, lie in it. */
  lemma TailWithin(text: string, from: nat)
    requires from <= |SplitLines(text)|
    ensures Within(LStrip(Join(SplitLines(text)[from..]), IsNewline), text)
  {
    hide SplitLines, Join, LStrip, Within;
    var lines := SplitLines(text);
    var rest := Join(lines[from..]);
    assert lines[from..] == lines[from..|lines|];
    StripSideWithin(rest, IsNewline);
    JoinSliceWithin(lines, from, |lines|);
    JoinSplitLines(text);
    WithinTransitive(LStrip(rest, IsNewline), rest, Join(lines));
    WithinTransitive(LStrip(rest, IsNewline), Join(lines), text);
  }

  lemma FrontmatterWithin(text: string)
    ensures Within(StripLeadingFrontmatter(text), text)
  {
    hide SplitLines, Join, LStrip, FrontmatterEnd;
    var lines := SplitLines(text);
    if StripLeadingFrontmatter(text) == text {
      assert text == text[0..|text|];
    } else {
      TailWithin(text, FrontmatterEnd(lines, 1) + 1);
    }
  }

  /** Any number of the trimmed text's first lines, joined and trimmed at the end, lies in the text. */
  lemma HeadWithin(text: string, head: seq<string>)
    requires head <= SplitLines(RStrip(text, PySpace))
    ensures Within(RStrip(Join(head), PySpace), text)
  {
    var trimmed, r := RStrip(text, PySpace), RStrip(Join(head), PySpace);
    var lines := SplitLines(trimmed);
    assert head == lines[0..|head|];
    StripSideWithin(Join(head), PySpace);
    StripSideWithin(text, PySpace);
    JoinSliceWithin(lines, 0, |head|);
    JoinSplitLines(trimmed);
    WithinTransitive(r, Join(head), Join(lines));
    WithinTransitive(r, Join(lines), trimmed);
    WithinTransitive(r, trimmed, text);
  }

  lemma TrailingSummaryWithin(text: string)
    ensures Within(StripTrailingSummary(text), text)
  {
    match SummaryHead(SplitLines(RStrip(text, PySpace)))
    case None =>
      assert text == text[0..|text|];
    case Some(head) =>
      HeadWithin(text, head);
  }

  /** Normalisation only trims the two ends: its result is one contiguous stretch of the input. */
  lemma NormalizeWithin(text: string)
    ensures Within(NormalizeArtifactMarkdown(text), text)
  {
    var a := StripWrappingFence(text);
    var b := StripLeadingFrontmatter(a);
    var c := StripTrailingSummary(b);
    UnwrapWithin(text);
    FrontmatterWithin(a);
    TrailingSummaryWithin(b);
    StripWithin(c, PySpace);
    WithinTransitive(Trim(c), c, b);
    WithinTransitive(Trim(c), b, a);
    WithinTransitive(Trim(c), a, text);
  }

  // ---------------------------------------------------------------- fences and labels, character by character

  ghost predicate White(s: string) {
    forall i :: 0 <= i < |s| ==> PySpace(s[i])
  }

  /** The line is the mark with white space around it. */
  ghost predicate Around(line: string, mark: string) {
    exists a, b :: line == a + mark + b && White(a) && White(b)
  }

  /** The line is three backticks, the info string and white space. */
  ghost predicate Opens(line: string, info: string) {
    && (exists w :: line == "```" + info + w && White(w))
    && forall i :: 0 <= i < |info| ==> 'A' <= info[i] <= 'Z' || 'a' <= info[i] <= 'z' || '0' <= info[i] <= '9'
                                       || info[i] == '_' || info[i] == '-'
  }

  /** After any white space the line goes on with three backticks. */
  ghost predicate FenceAhead(line: string) {
    exists a, b :: line == a + "```" + b && White(a)
  }

  ghost predicate SomeFenceAhead(lines: seq<string>) {
    exists i :: 0 <= i < |lines| && FenceAhead(lines[i])
  }

  /** The word in any mix of upper and lower case letters. */
  ghost predicate AnyCase(s: string, lower: string, upper: string) {
    |s| == |lower| == |upper| && forall i :: 0 <= i < |s| ==> s[i] == lower[i] || s[i] == upper[i]
  }

  ghost predicate SaysMarkdown(info: string) {
    AnyCase(info, "markdown", "MARKDOWN") || AnyCase(info, "md", "MD")
  }

  lemma LowerIs(s: string, lower: string, upper: string)
    requires |lower| == |upper|
    requires forall i :: 0 <= i < |lower| ==> 'a' <= lower[i] <= 'z' && upper[i] as int == lower[i] as int - 32
    ensures Lower(s) == lower <==> AnyCase(s, lower, upper)
  {
    if AnyCase(s, lower, upper) {
      forall i | 0 <= i < |s| ensures Lower(s)[i] == lower[i] {
        assert Lower(s)[i] == LowerChar(s[i]);
      }
      assert Lower(s) == lower;
    }
    if Lower(s) == lower {
      forall i | 0 <= i < |s| ensures s[i] == lower[i] || s[i] == upper[i] {
        assert lower[i] == LowerChar(s[i]);
      }
    }
  }

  lemma MarkdownIs(info: string)
    ensures MarkdownInfo(info) <==> SaysMarkdown(info)
  {
    hide Lower, AnyCase;
    LowerIs(info, "markdown", "MARKDOWN");
    LowerIs(info, "md", "MD");
  }

  lemma WhiteIs(s: string)
    ensures White(s) <==> Blank(s, PySpace)
  {
    hide PySpace;
    assert forall i :: 0 <= i < |s| ==> s[i] in s;
  }

  lemma RStripParts(s: string) returns (w: string)
    ensures s == RStrip(s, PySpace) + w && White(w)
  {
    TrailingBlanksBlank(s, PySpace);
    w := s[|s| - TrailingBlanks(s, PySpace)..];
    WhiteIs(w);
  }

  lemma LStripParts(s: string) returns (w: string)
    ensures s == w + LStrip(s, PySpace) && White(w)
  {
    LeadingBlanksBlank(s, PySpace);
    w := s[..LeadingBlanks(s, PySpace)];
    WhiteIs(w);
  }

  lemma {:induction false} WhiteEndDropped(s: string, w: string)
    requires White(w) && s != "" && !PySpace(s[|s| - 1])
    ensures RStrip(s + w, PySpace) == s
    decreases |w|
  {
    hide PySpace;
    if w == "" {
      assert s + w == s;
    } else {
      var t, init := s + w, w[..|w| - 1];
      assert t[|t| - 1] == w[|w| - 1] && t[..|t| - 1] == s + init;
      WhiteEndDropped(s, init);
    }
  }

  lemma {:induction false} WhiteStartDropped(w: string, s: string)
    requires White(w) && s != "" && !PySpace(s[0])
    ensures LStrip(w + s, PySpace) == s
    decreases |w|
  {
    hide PySpace;
    if w == "" {
      assert w + s == s;
    } else {
      assert (w + s)[0] == w[0] && (w + s)[1..] == w[1..] + s;
      WhiteStartDropped(w[1..], s);
    }
  }

  /** A mark that neither starts nor ends with white space is what trimming leaves exactly of lines around it. */
  lemma AroundIs(line: string, mark: string)
    requires mark != "" && !PySpace(mark[0]) && !PySpace(mark[|mark| - 1])
    ensures Trim(line) == mark <==> Around(line, mark)
  {
    hide PySpace, LStrip, RStrip;
    if Trim(line) == mark {
      var a := LStripParts(line);
      var b := RStripParts(LStrip(line, PySpace));
      Assoc(a, mark, b);
    }
    if a, b :| line == a + mark + b && White(a) && White(b) {
      Assoc(a, mark, b);
      assert (mark + b)[0] == mark[0];
      WhiteStartDropped(a, mark + b);
      WhiteEndDropped(mark, b);
    }
  }

  lemma OpensIs(line: string, info: string)
    ensures FenceInfo(line) == Some(info) <==> Opens(line, info)
  {
    hide PySpace, RStrip;
    var mark := FENCE + info;
    if FenceInfo(line) == Some(info) {
      var w := RStripParts(line);
      var l := RStrip(line, PySpace);
      assert l == mark;
      forall i | 0 <= i < |info| ensures InfoChar(info[i]) {
        assert info[i] in l[3..];
      }
    }
    if Opens(line, info) {
      var w :| line == "```" + info + w && White(w);
      NoInfoIsWhite(info);
      assert mark[|mark| - 1] == if info == "" then '`' else info[|info| - 1];
      WhiteEndDropped(mark, w);
      assert mark[..3] == FENCE && mark[3..] == info;
    }
  }

  lemma NoInfoIsWhite(info: string)
    ensures !PySpace('`')
    ensures forall i :: 0 <= i < |info| && InfoChar(info[i]) ==> !PySpace(info[i])
  {
  }

  lemma FenceAheadIs(line: string)
    ensures StartsWith(LStrip(line, PySpace), FENCE) <==> FenceAhead(line)
  {
    NoInfoIsWhite("");
    hide PySpace, LStrip;
    if StartsWith(LStrip(line, PySpace), FENCE) {
      var a := LStripParts(line);
      var l := LStrip(line, PySpace);
      assert l == FENCE + l[3..];
      Assoc(a, FENCE, l[3..]);
    }
    if a, b :| line == a + "```" + b && White(a) {
      Assoc(a, FENCE, b);
      assert (FENCE + b)[0] == '`' && (FENCE + b)[..3] == FENCE;
      WhiteStartDropped(a, FENCE + b);
    }
  }

  lemma SomeFenceAheadIs(lines: seq<string>)
    ensures HasInnerFence(lines) <==> SomeFenceAhead(lines)
  {
    hide FenceAhead, StartsWith, LStrip;
    forall i | 0 <= i < |lines| ensures StartsWith(LStrip(lines[i], PySpace), FENCE) <==> FenceAhead(lines[i]) {
      FenceAheadIs(lines[i]);
    }
    assert forall i :: 0 <= i < |lines| ==> lines[i] in lines;
  }

  /** These lines are one fence around all of them: the last is three backticks, the first opens a fence, and either no
      line in between starts with backticks or the info string says markdown. */
  ghost predicate WholeFence(lines: seq<string>) {
    && |lines| >= 2 && Around(lines[|lines| - 1], "```")
    && exists info :: Opens(lines[0], info) && (SomeFenceAhead(lines[1..|lines| - 1]) ==> SaysMarkdown(info))
  }

  lemma FenceMarks()
    ensures !PySpace('`') && !PySpace('-') && !PySpace('.')
  {
  }

  lemma WholeFenceIs(text: string)
    ensures Wrapped(text) <==> WholeFence(SplitLines(Trim(text)))
  {
    FenceMarks();
    hide PySpace, Trim, SplitLines, FenceInfo, HasInnerFence, Opens, Around, SaysMarkdown, MarkdownInfo;
    var lines := SplitLines(Trim(text));
    if |lines| >= 2 {
      AroundIs(lines[|lines| - 1], FENCE);
      SomeFenceAheadIs(lines[1..|lines| - 1]);
      if info :| Opens(lines[0], info) && (SomeFenceAhead(lines[1..|lines| - 1]) ==> SaysMarkdown(info)) {
        OpensIs(lines[0], info);
        MarkdownIs(info);
      }
      if FenceInfo(lines[0]).Some? {
        OpensIs(lines[0], FenceInfo(lines[0]).value);
        MarkdownIs(FenceInfo(lines[0]).value);
      }
    }
  }

  lemma WholeFenceLong(lines: seq<string>)
    ensures WholeFence(lines) ==> |lines| >= 2
  {
  }

  /** Unwrapping any text, from its lines alone. */
  lemma UnwrapReads(text: string)
    ensures var lines := SplitLines(Trim(text));
            StripWrappingFence(text)
            == if WholeFence(lines) then Trim(Join(lines[1..|lines| - 1])) else Trim(text)
  {
    hide Trim, SplitLines, Fenced, HasInnerFence, MarkdownInfo, Join, WholeFence;
    WholeFenceIs(text);
  }

  // ---------------------------------------------------------------- unwrapping

  /** The text an agent emits when it fences its whole document. */
  function Fence(info: string, body: string): string {
    Join([FENCE + info, body, FENCE])
  }

  lemma FenceShape(info: string, body: string)
    ensures Fence(info, body) == FENCE + info + NL + body + NL + FENCE
  {
    assert Join([body, FENCE]) == body + NL + FENCE;
    assert [FENCE + info, body, FENCE][1..] == [body, FENCE];
    Assoc(FENCE + info + NL, body + NL, FENCE);
    Assoc(FENCE + info + NL, body, NL);
  }

  lemma FenceLine(info: string)
    requires forall c :: c in info ==> InfoChar(c)
    ensures NoNewline(FENCE + info) && FenceInfo(FENCE + info) == Some(info)
    ensures Trim(FENCE) == FENCE && NoNewline(FENCE)
  {
    var line := FENCE + info;
    assert line[|line| - 1] == '`' || line[|line| - 1] in info;
    StripStripped(line, PySpace);
    StripStripped(FENCE, PySpace);
    assert line[..3] == FENCE && line[3..] == info;
  }

  lemma FenceLines(info: string, body: string)
    requires forall c :: c in info ==> InfoChar(c)
    ensures Trim(Fence(info, body)) == Fence(info, body)
    ensures SplitLines(Fence(info, body)) == [FENCE + info] + Split(body) + [FENCE]
  {
    var text := Fence(info, body);
    FenceShape(info, body);
    assert text[0] == '`' && text[|text| - 1] == '`';
    StripStripped(text, PySpace);
    FenceLine(info);
    SplitConcat(FENCE + info + NL + body, FENCE);
    SplitStep(FENCE + info, body);
    SplitOne(FENCE);
  }

  /** Unwrapping a fenced body returns the trimmed body: for a markdown fence whatever the body
      holds, for any other info string when the body has no fence of its own. */
  lemma FencedBodyUnwrapped(info: string, body: string)
    requires forall c :: c in info ==> InfoChar(c)
    ensures StripWrappingFence("```" + info + "\n" + body + "\n" + "```") ==
            if SomeFenceAhead(Split(body)) && !SaysMarkdown(info) then "```" + info + "\n" + body + "\n" + "```"
            else Trim(body)
  {
    SomeFenceAheadIs(Split(body));
    MarkdownIs(info);
    FenceShape(info, body);
    hide SaysMarkdown, MarkdownInfo, SomeFenceAhead, HasInnerFence;
    var text := Fence(info, body);
    FenceLines(info, body);
    FenceLine(info);
    var lines := SplitLines(text);
    assert lines[0] == FENCE + info && lines[|lines| - 1] == FENCE;
    assert lines[1..|lines| - 1] == Split(body);
    JoinSplit(body);
  }

  lemma TrimTwice(text: string)
    ensures Trim(Trim(text)) == Trim(text)
  {
    var _, _ := StripEnds(text, PySpace);
    StripStripped(Trim(text), PySpace);
  }

  lemma WrappedTrimmed(text: string)
    ensures Wrapped(Trim(text)) == Wrapped(text)
  {
    TrimTwice(text);
  }

  /** Unwrapping a wrapped text makes it strictly shorter. */
  lemma UnwrapShortens(text: string)
    requires Wrapped(text)
    ensures |StripWrappingFence(text)| < |Trim(text)|
  {
    var t := Trim(text);
    var lines := SplitLines(t);
    var inner := Inner(text);
    assert lines == [lines[0]] + (inner + [lines[|lines| - 1]]);
    JoinConcat([lines[0]], inner + [lines[|lines| - 1]]);
    if inner != [] {
      JoinConcat(inner, [lines[|lines| - 1]]);
    }
    JoinSplit(t);
    assert Trim(t) == t by { TrimTwice(text); }
    assert t[|t| - 1] != '\n' by {
      var _, _ := StripEnds(text, PySpace);
    }
    assert Join(lines) == t;
    var _, _ := StripEnds(Join(inner), PySpace);
  }

  lemma {:induction false} LeadingBlanksThen(line: string, w: string)
    requires Trim(line) != ""
    ensures LeadingBlanks(line + w, PySpace) == LeadingBlanks(line, PySpace)
  {
    if PySpace(line[0]) {
      assert (line + w)[1..] == line[1..] + w;
      LeadingBlanksThen(line[1..], w);
    }
  }

  /** A line that trims to a fence still opens one when white space follows it. */
  lemma FenceLineThen(line: string, w: string)
    requires Trim(line) == FENCE
    ensures StartsWith(LStrip(line + w, PySpace), FENCE)
  {
    LeadingBlanksThen(line, w);
    var l, k := LStrip(line, PySpace), LeadingBlanks(line, PySpace);
    assert LStrip(line + w, PySpace) == (line + w)[k..] == l + w;
    assert l[..3] == RStrip(l, PySpace)[..3] == FENCE;
  }

  /** A fenced text is anything, a line feed, its closing fence line and trailing white space. */
  lemma FencedParts(text: string) returns (front: string, last: string, post: string)
    requires Fenced(text)
    ensures text == front + NL + (last + post) && NoNewline(last) && Trim(last) == FENCE
  {
    var pre, after := StripParts(text, PySpace);
    var lines := SplitLines(Trim(text));
    last := lines[|lines| - 1];
    var init, more := LastLine(Trim(text));
    FourParts(pre, init, last, more + after);
    assert init + NL + last + (more + after) == init + NL + last + more + after;
    Assoc(pre, Trim(text), after);
    front, post := pre + init, more + after;
  }

  /** Text that splits into lines is those lines joined, and perhaps a line feed. */
  lemma LinesBody(t: string) returns (body: string, more: string)
    requires t != ""
    ensures SplitLines(t) == Split(body) && t == body + more
  {
    if t[|t| - 1] == '\n' {
      body, more := t[..|t| - 1], NL;
    } else {
      body, more := t, "";
    }
  }

  lemma LastLine(t: string) returns (init: string, more: string)
    requires |SplitLines(t)| >= 2
    ensures var lines := SplitLines(t); t == init + NL + lines[|lines| - 1] + more
  {
    var body;
    assert t != "";
    hide Split, SplitLines, Join;
    body, more := LinesBody(t);
    init := JoinedButLast(body);
  }

  lemma JoinedButLast(body: string) returns (init: string)
    requires |Split(body)| >= 2
    ensures body == init + NL + Split(body)[|Split(body)| - 1]
  {
    var lines, n := Split(body), |Split(body)| - 1;
    JoinSplit(body);
    OneJoined(lines[n]);
    init := Join(lines[..n]);
    hide Join, Split;
    assert lines == lines[..n] + [lines[n]];
    JoinConcat(lines[..n], [lines[n]]);
  }

  lemma OneJoined(l: string)
    ensures Join([l]) == l
  {
  }

  lemma FourParts(a: string, b: string, c: string, d: string)
    ensures a + (b + NL + c + d) == a + b + NL + (c + d)
  {
    Assoc(b + NL, c, d);
    Assoc(a, b + NL, c + d);
    Assoc(a, b, NL);
  }

  lemma FenceLineKept(front: string, last: string, post: string)
    requires NoNewline(last) && Trim(last) == FENCE
    ensures HasInnerFence(Split(front + NL + (last + post)))
  {
    SplitConcat(front, last + post);
    var k := FirstNewline(post);
    FirstNewlineOf(last, post);
    var line := Split(last + post)[0];
    assert line == (last + post)[..|last| + k] == last + post[..k];
    FenceLineThen(last, post[..k]);
    assert line in Split(front) + Split(last + post);
  }

  /** If joined lines are wrapped, the closing fence is one of the lines. */
  lemma WrappedHasInnerFence(inner: seq<string>)
    requires forall l :: l in inner ==> NoNewline(l)
    requires Wrapped(Join(inner))
    ensures HasInnerFence(inner)
  {
    if inner == [] {
      StripStripped("", PySpace);
      assert false;
    }
    SplitJoin(inner);
    var front, last, post := FencedParts(Join(inner));
    FenceLineKept(front, last, post);
  }

  /** Unwrapping twice is unwrapping once, except for a markdown wrapper whose body is itself wrapped:
      there each call peels one more layer. */
  lemma UnwrapIdempotentIff(text: string)
    ensures StripWrappingFence(StripWrappingFence(text)) == StripWrappingFence(text)
            <==> (var lines := SplitLines(Trim(text));
                  !(WholeFence(lines) && SomeFenceAhead(lines[1..|lines| - 1])
                    && WholeFence(SplitLines(Trim(Join(lines[1..|lines| - 1]))))))
  {
    hide Trim, Fenced, Join, Split, SplitLines, HasInnerFence, SomeFenceAhead, WholeFence;
    var lines := SplitLines(Trim(text));
    WholeFenceIs(text);
    WholeFenceLong(lines);
    if |lines| >= 2 {
      SomeFenceAheadIs(lines[1..|lines| - 1]);
      WholeFenceIs(Join(lines[1..|lines| - 1]));
    }
    TrimTwice(text);
    WrappedTrimmed(text);
    if Wrapped(text) {
      var body := Join(Inner(text));
      TrimTwice(body);
      WrappedTrimmed(body);
      if Wrapped(body) {
        UnwrapShortens(Trim(body));
        WrappedHasInnerFence(Inner(text));
      }
    }
  }

  /** A markdown wrapper around a markdown wrapper: the first call peels one layer, the second the other. */
  lemma MarkdownPeelsOneLayer(body: string)
    ensures StripWrappingFence(Fence("markdown", Fence("markdown", body))) == Fence("markdown", body)
    ensures StripWrappingFence(Fence("markdown", body)) == Trim(body)
  {
    hide StripWrappingFence, Trim, Split, Fence;
    MarkdownUnwrapped(Fence("markdown", body));
    MarkdownUnwrapped(body);
    FenceLines("markdown", body);
  }

  lemma MarkdownUnwrapped(body: string)
    ensures StripWrappingFence(Fence("markdown", body)) == Trim(body)
  {
    hide StripWrappingFence, Trim, Split, Fence, SomeFenceAhead;
    FencedBodyUnwrapped("markdown", body);
    FenceShape("markdown", body);
    assert AnyCase("markdown", "markdown", "MARKDOWN");
  }

  ghost predicate Lines(lines: seq<string>) {
    forall l :: l in lines ==> NoNewline(l)
  }

  // ---------------------------------------------------------------- frontmatter, for every text

  ghost predicate Closes(line: string) {
    Trim(line) == DASHES || Trim(line) == DOTS
  }

  ghost predicate NoneCloses(lines: seq<string>) {
    forall l :: l in lines ==> !Closes(l)
  }

  ghost predicate AllEmpty(lines: seq<string>) {
    forall l :: l in lines ==> l == ""
  }

  /** The lines are an opening ---, frontmatter up to the first --- or ..., empty lines, and the rest. */
  ghost predicate FrontmatterParts(lines: seq<string>, front: seq<string>, close: string, blanks: seq<string>,
                                   rest: seq<string>) {
    && lines != [] && lines == [lines[0]] + front + [close] + blanks + rest
    && Trim(lines[0]) == DASHES && Closes(close) && NoneCloses(front)
    && AllEmpty(blanks) && (rest != [] ==> rest[0] != "")
  }

  ghost predicate HasFrontmatter(lines: seq<string>) {
    exists front, close, blanks, rest :: FrontmatterParts(lines, front, close, blanks, rest)
  }

  lemma {:induction false} FrontmatterEndIs(lines: seq<string>, i: nat, k: nat)
    requires i <= k < |lines| && Closes(lines[k])
    requires forall j :: i <= j < k ==> !Closes(lines[j])
    ensures FrontmatterEnd(lines, i) == k
    decreases k - i
  {
    if i < k {
      FrontmatterEndIs(lines, i + 1, k);
    }
  }

  lemma FrontmatterStep(text: string, k: nat)
    requires var lines := SplitLines(text);
             lines != [] && Trim(lines[0]) == DASHES && FrontmatterEnd(lines, 1) == k < |lines|
    ensures StripLeadingFrontmatter(text) == LStrip(Join(SplitLines(text)[k + 1..]), IsNewline)
  {
  }

  lemma LStripNewline(s: string)
    ensures LStrip(NL + s, IsNewline) == LStrip(s, IsNewline)
  {
    var t := NL + s;
    assert t[0] == '\n' && t[1..] == s;
    assert LeadingBlanks(t, IsNewline) == 1 + LeadingBlanks(s, IsNewline);
  }

  lemma NoLeadingNewline(s: string)
    requires s == "" || s[0] != '\n'
    ensures LStrip(s, IsNewline) == s
  {
    assert LeadingBlanks(s, IsNewline) == 0;
  }

  /** Empty lines at the start are what stripping line feeds drops. */
  lemma {:induction false} EmptyLinesDropped(blanks: seq<string>, rest: seq<string>)
    requires AllEmpty(blanks) && Lines(rest) && (rest != [] ==> rest[0] != "")
    ensures LStrip(Join(blanks + rest), IsNewline) == Join(rest)
  {
    if blanks == [] {
      assert blanks + rest == rest;
      FirstCharacter(rest);
      NoLeadingNewline(Join(rest));
    } else {
      assert blanks[0] in blanks && forall l :: l in blanks[1..] ==> l in blanks;
      EmptyLinesDropped(blanks[1..], rest);
      assert blanks + rest == [""] + (blanks[1..] + rest);
      hide LStrip, Join;
      EmptyLineFirst(blanks[1..] + rest);
    }
  }

  lemma EmptyLineFirst(lines: seq<string>)
    ensures LStrip(Join([""] + lines), IsNewline) == LStrip(Join(lines), IsNewline)
  {
    if lines == [] {
      assert [""] + lines == [""];
    } else {
      assert ([""] + lines)[1..] == lines;
      assert Join([""] + lines) == NL + Join(lines);
      LStripNewline(Join(lines));
    }
  }

  lemma FirstCharacter(lines: seq<string>)
    requires Lines(lines) && (lines != [] ==> lines[0] != "")
    ensures Join(lines) == "" || Join(lines)[0] != '\n'
  {
    if lines != [] {
      JoinEnds(lines);
      assert lines[0] in lines && lines[0][0] in lines[0];
      assert Join(lines)[..|lines[0]|] == lines[0];
    }
  }

  /** Leading frontmatter is dropped, with every empty line after it. */
  lemma FrontmatterDropped(text: string, front: seq<string>, close: string, blanks: seq<string>, rest: seq<string>)
    requires FrontmatterParts(SplitLines(text), front, close, blanks, rest)
    ensures StripLeadingFrontmatter(text) == Join(rest)
  {
    hide Trim, SplitLines, Join, LStrip, StripLeadingFrontmatter, FrontmatterEnd;
    var lines, k := SplitLines(text), |front| + 1;
    assert lines[k] == close && lines[k + 1..] == blanks + rest;
    forall j | 1 <= j < k ensures !Closes(lines[j]) {
      assert lines[j] == front[j - 1] && front[j - 1] in front;
    }
    hide Closes;
    FrontmatterEndIs(lines, 1, k);
    FrontmatterStep(text, k);
    forall l | l in rest ensures NoNewline(l) {
      assert l in lines;
    }
    EmptyLinesDropped(blanks, rest);
  }

  /** How many empty lines come first. */
  function EmptyLines(lines: seq<string>): (k: nat)
    ensures k <= |lines| && (k < |lines| ==> lines[k] != "")
    ensures forall l :: l in lines[..k] ==> l == ""
  {
    if lines != [] && lines[0] == "" then
      var k := 1 + EmptyLines(lines[1..]);
      assert lines[..k] == [""] + lines[1..][..k - 1];
      k
    else 0
  }

  /** A shorter text is another text. */
  lemma RestIsShorter(text: string, before: seq<string>, rest: seq<string>)
    requires SplitLines(text) == before + rest && before != []
    ensures Join(rest) != text
  {
    JoinSplitLines(text);
    var lines := SplitLines(text);
    assert |Join(lines)| <= |text|;
    if rest == [] {
      assert lines != [] && text != "";
    } else {
      JoinConcat(before, rest);
    }
  }

  /** For every text: stripping changes it exactly when it has leading frontmatter, and then leaves the
      lines after it and after the empty lines that follow it. */
  lemma FrontmatterChangesIff(text: string)
    ensures StripLeadingFrontmatter(text) != text
            <==> HasFrontmatter(SplitLines(text))
    ensures forall front, close, blanks, rest :: FrontmatterParts(SplitLines(text), front, close, blanks, rest) ==>
              StripLeadingFrontmatter(text) == Join(rest)
  {
    var lines := SplitLines(text);
    if StripLeadingFrontmatter(text) != text {
      FrontmatterFound(text);
    }
    hide SplitLines, StripLeadingFrontmatter, Join, Trim, Closes;
    forall front, close, blanks, rest | FrontmatterParts(lines, front, close, blanks, rest)
      ensures StripLeadingFrontmatter(text) == Join(rest) && Join(rest) != text
    {
      FrontmatterDropped(text, front, close, blanks, rest);
      RestIsShorter(text, [lines[0]] + front + [close] + blanks, rest);
    }
  }

  lemma FrontmatterFound(text: string)
    requires StripLeadingFrontmatter(text) != text
    ensures HasFrontmatter(SplitLines(text))
  {
    var lines := SplitLines(text);
    var k := FrontmatterEnd(lines, 1);
    hide SplitLines, FrontmatterEnd, EmptyLines, Trim;
    assert AllEmpty(lines[k + 1..][..EmptyLines(lines[k + 1..])]);
    FoundFrontmatter(lines, k, EmptyLines(lines[k + 1..]));
  }

  lemma FoundFrontmatter(lines: seq<string>, k: nat, n: nat)
    requires lines != [] && Trim(lines[0]) == DASHES && 1 <= k < |lines| && Closes(lines[k])
    requires forall j :: 1 <= j < k ==> !Closes(lines[j])
    requires n <= |lines| - k - 1 && AllEmpty(lines[k + 1..][..n]) && (n < |lines| - k - 1 ==> lines[k + 1..][n] != "")
    ensures HasFrontmatter(lines)
  {
    hide Trim, Closes;
    assert NoneCloses(lines[1..k]);
    var tail := lines[k + 1..];
    assert tail == tail[..n] + tail[n..];
    assert lines == [lines[0]] + lines[1..k] + [lines[k]] + tail;
    Assoc([lines[0]] + lines[1..k] + [lines[k]], tail[..n], tail[n..]);
    assert FrontmatterParts(lines, lines[1..k], lines[k], tail[..n], tail[n..]);
  }

  // ---------------------------------------------------------------- the trailing summary, for every text

  ghost predicate AllBlank(lines: seq<string>) {
    forall l :: l in lines ==> Trim(l) == ""
  }

  ghost predicate NoFence(lines: seq<string>) {
    forall l :: l in lines ==> FenceInfo(Trim(l)).None?
  }

  /** A label line, or none where the lines before end in something else. */
  ghost predicate LabelOk(doc: seq<string>, title: seq<string>) {
    || (|title| == 1 && IsLabel(title[0]) && Trim(title[0]) != "")
    || (title == [] && (doc != [] ==> Trim(doc[|doc| - 1]) != "" && !IsLabel(doc[|doc| - 1])))
  }

  /** The lines are a document, perhaps a label, blank lines, and a last fenced block with a hint in it. */
  ghost predicate SummaryParts(lines: seq<string>, doc: seq<string>, title: seq<string>, blanks: seq<string>,
                               open: string, content: seq<string>, close: string) {
    && lines == doc + title + blanks + [open] + content + [close]
    && LabelOk(doc, title) && AllBlank(blanks)
    && FenceInfo(Trim(open)).Some? && NoFence(content) && HasHint(Join(content)) && Trim(close) == FENCE
  }

  lemma {:induction false} NearestOpeningIs(lines: seq<string>, k: nat, i: nat)
    requires k < i <= |lines| && FenceInfo(Trim(lines[k])).Some?
    requires forall j :: k < j < i ==> FenceInfo(Trim(lines[j])).None?
    ensures NearestOpening(lines, i) == k
  {
  }

  lemma SummaryHeadStep(lines: seq<string>, k: nat)
    requires k < |lines| - 1 && Trim(lines[|lines| - 1]) == FENCE
    requires NearestOpening(lines, |lines| - 1) == k && HasHint(Join(lines[k + 1..|lines| - 1]))
    ensures SummaryHead(lines) == Some(DropLabel(DropBlankTail(lines[..k])))
  {
  }

  lemma {:induction false} BlanksDropped(head: seq<string>, blanks: seq<string>)
    requires AllBlank(blanks) && (head != [] ==> Trim(head[|head| - 1]) != "")
    ensures DropBlankTail(head + blanks) == head
    decreases |blanks|
  {
    if blanks == [] {
      assert head + blanks == head;
    } else {
      var init, last := blanks[..|blanks| - 1], blanks[|blanks| - 1];
      assert last in blanks && (head + blanks)[..|head + blanks| - 1] == head + init;
      BlanksDropped(head, init);
    }
  }

  lemma LabelDropped(doc: seq<string>, title: seq<string>)
    requires LabelOk(doc, title)
    ensures DropLabel(doc + title) == doc
    ensures doc + title != [] ==> Trim((doc + title)[|doc + title| - 1]) != ""
  {
    if title == [] {
      assert doc + title == doc;
    } else {
      assert (doc + title)[..|doc|] == doc;
    }
  }

  lemma SummaryFound(lines: seq<string>, doc: seq<string>, title: seq<string>, blanks: seq<string>,
                     open: string, content: seq<string>, close: string)
    requires SummaryParts(lines, doc, title, blanks, open, content, close)
    ensures SummaryHead(lines) == Some(doc)
  {
    hide Trim, FenceInfo, SummaryHead, DropLabel, DropBlankTail, IsLabel, HasHint, NearestOpening, Join;
    var k := |doc + title + blanks|;
    assert lines[..k] == doc + title + blanks && lines[k] == open && lines[k + 1..|lines| - 1] == content;
    forall j | k < j < |lines| - 1 ensures FenceInfo(Trim(lines[j])).None? {
      assert lines[j] == content[j - k - 1] && content[j - k - 1] in content;
    }
    NearestOpeningIs(lines, k, |lines| - 1);
    SummaryHeadStep(lines, k);
    LabelDropped(doc, title);
    BlanksDropped(doc + title, blanks);
  }

  /** A trailing summary block is dropped, with its label and the blank lines around it. */
  lemma SummaryDropped(text: string, doc: seq<string>, title: seq<string>, blanks: seq<string>,
                       open: string, content: seq<string>, close: string)
    requires SummaryParts(SplitLines(RStrip(text, PySpace)), doc, title, blanks, open, content, close)
    ensures StripTrailingSummary(text) == RStrip(Join(doc), PySpace)
  {
    SummaryFound(SplitLines(RStrip(text, PySpace)), doc, title, blanks, open, content, close);
  }

  ghost predicate HasSummary(lines: seq<string>) {
    exists doc, title, blanks, open, content, close :: SummaryParts(lines, doc, title, blanks, open, content, close)
  }

  lemma HeadHasSummary(lines: seq<string>)
    requires SummaryHead(lines).Some?
    ensures HasSummary(lines)
  {
    var n := |lines| - 1;
    var k: nat := NearestOpening(lines, n);
    var head := DropBlankTail(lines[..k]);
    var doc := DropLabel(head);
    LabelOf(head);
    BlanksOf(lines[..k], |head|);
    ContentOf(lines, k, n);
    hide Trim, FenceInfo, SummaryHead, DropLabel, DropBlankTail, IsLabel, HasHint, NearestOpening, Join, LabelOk;
    FoundSummary(lines, n, k, head, doc);
  }

  /** A list of lines around position k. */
  lemma LinesAround(lines: seq<string>, k: nat, n: nat)
    requires k < n == |lines| - 1
    ensures lines == lines[..k] + [lines[k]] + lines[k + 1..n] + [lines[n]]
  {
  }

  lemma BlanksOf(lines: seq<string>, n: nat)
    requires n <= |lines| && forall i :: n <= i < |lines| ==> Trim(lines[i]) == ""
    ensures AllBlank(lines[n..])
  {
    forall l | l in lines[n..] ensures Trim(l) == "" {
      var i :| 0 <= i < |lines[n..]| && lines[n..][i] == l;
      assert lines[n + i] == l;
    }
  }

  lemma ContentOf(lines: seq<string>, k: nat, n: nat)
    requires k < n <= |lines| && forall j :: k < j < n ==> FenceInfo(Trim(lines[j])).None?
    ensures NoFence(lines[k + 1..n])
  {
    forall l | l in lines[k + 1..n] ensures FenceInfo(Trim(l)).None? {
      var i :| 0 <= i < |lines[k + 1..n]| && lines[k + 1..n][i] == l;
      assert lines[k + 1 + i] == l;
    }
  }

  lemma FoundSummary(lines: seq<string>, n: nat, k: nat, head: seq<string>, doc: seq<string>)
    requires k < n == |lines| - 1 && head <= lines[..k] && doc <= head && LabelOk(doc, head[|doc|..])
    requires AllBlank(lines[..k][|head|..]) && NoFence(lines[k + 1..n])
    requires FenceInfo(Trim(lines[k])).Some? && HasHint(Join(lines[k + 1..n])) && Trim(lines[n]) == FENCE
    ensures HasSummary(lines)
  {
    hide Trim, FenceInfo, HasHint, Join, LabelOk, AllBlank, NoFence, HasSummary;
    LinesAround(lines, k, n);
    assert doc + head[|doc|..] == head && head + lines[..k][|head|..] == lines[..k];
    SummaryIs(lines, doc, head[|doc|..], lines[..k][|head|..], lines[k], lines[k + 1..n], lines[n]);
  }

  lemma SummaryIs(lines: seq<string>, doc: seq<string>, title: seq<string>, blanks: seq<string>,
                  open: string, content: seq<string>, close: string)
    requires SummaryParts(lines, doc, title, blanks, open, content, close)
    ensures HasSummary(lines)
  {
    hide SummaryParts;
  }

  lemma LabelOf(head: seq<string>)
    requires head != [] ==> Trim(head[|head| - 1]) != ""
    ensures var doc := DropLabel(head); LabelOk(doc, head[|doc|..])
  {
  }

  /** Head lines, joined and trimmed, are shorter than the text they come from. */
  lemma HeadIsShorter(text: string, lines: seq<string>, head: seq<string>)
    requires lines == SplitLines(RStrip(text, PySpace)) && head < lines
    ensures RStrip(Join(head), PySpace) != text
  {
    JoinSplitLines(RStrip(text, PySpace));
    assert |Join(lines)| <= |RStrip(text, PySpace)| <= |text|;
    var more := lines[|head|..];
    assert lines == head + more;
    if head == [] {
      assert RStrip("", PySpace) == "" && text != "";
    } else {
      JoinConcat(head, more);
    }
  }

  /** For every text: stripping changes it exactly when it ends in a summary block, and then leaves the
      lines before the block, its label and the blank lines around them. */
  lemma SummaryChangesIff(text: string)
    ensures StripTrailingSummary(text) != text <==> HasSummary(SplitLines(RStrip(text, PySpace)))
    ensures forall doc, title, blanks, open, content, close ::
              SummaryParts(SplitLines(RStrip(text, PySpace)), doc, title, blanks, open, content, close) ==>
              StripTrailingSummary(text) == RStrip(Join(doc), PySpace)
  {
    var lines := SplitLines(RStrip(text, PySpace));
    hide SummaryParts, SplitLines, RStrip, Join;
    forall doc, title, blanks, open, content, close | SummaryParts(lines, doc, title, blanks, open, content, close)
      ensures SummaryHead(lines) == Some(doc)
    {
      SummaryFound(lines, doc, title, blanks, open, content, close);
    }
    match SummaryHead(lines)
    case Some(head) =>
      HeadHasSummary(lines);
      HeadIsProper(lines);
      HeadIsShorter(text, lines, head);
    case None =>
  }

  lemma HeadIsProper(lines: seq<string>)
    requires SummaryHead(lines).Some?
    ensures SummaryHead(lines).value < lines
  {
  }

  // ---------------------------------------------------------------- frontmatter and summary, character by character

  /** A dashed line, frontmatter up to the first line of three dashes or dots, empty lines, and the rest. */
  ghost predicate FrontmatterText(lines: seq<string>, front: seq<string>, close: string, blanks: seq<string>,
                                  rest: seq<string>) {
    && lines != [] && lines == [lines[0]] + front + [close] + blanks + rest
    && Around(lines[0], "---") && (Around(close, "---") || Around(close, "..."))
    && (forall l :: l in front ==> !Around(l, "---") && !Around(l, "..."))
    && (forall l :: l in blanks ==> l == "") && (rest != [] ==> rest[0] != "")
  }

  lemma ClosesIs(line: string)
    ensures Closes(line) <==> Around(line, "---") || Around(line, "...")
    ensures Trim(line) == DASHES <==> Around(line, "---")
  {
    FenceMarks();
    hide PySpace, Trim, Around;
    AroundIs(line, "---");
    AroundIs(line, "...");
  }

  lemma FrontmatterTextIs(lines: seq<string>, front: seq<string>, close: string, blanks: seq<string>, rest: seq<string>)
    ensures FrontmatterParts(lines, front, close, blanks, rest) <==> FrontmatterText(lines, front, close, blanks, rest)
  {
    hide Trim, Around, Closes;
    if lines != [] {
      ClosesIs(lines[0]);
    }
    ClosesIs(close);
    forall l | l in front ensures Closes(l) <==> Around(l, "---") || Around(l, "...") {
      ClosesIs(l);
    }
  }

  /** Leading frontmatter of any text, from the characters of its lines: stripping changes the text exactly when it has
      some, and then leaves the rest. */
  lemma FrontmatterReads(text: string)
    ensures StripLeadingFrontmatter(text) != text
            <==> exists front, close, blanks, rest :: FrontmatterText(SplitLines(text), front, close, blanks, rest)
    ensures forall front, close, blanks, rest :: FrontmatterText(SplitLines(text), front, close, blanks, rest) ==>
              StripLeadingFrontmatter(text) == Join(rest)
  {
    hide SplitLines, StripLeadingFrontmatter, Join, FrontmatterParts, FrontmatterText;
    FrontmatterChangesIff(text);
    forall front, close, blanks, rest
      ensures FrontmatterParts(SplitLines(text), front, close, blanks, rest)
              <==> FrontmatterText(SplitLines(text), front, close, blanks, rest)
    {
      FrontmatterTextIs(SplitLines(text), front, close, blanks, rest);
    }
  }

  /** With the white space around it gone, the line opens a fence. */
  ghost predicate OpensInside(line: string) {
    exists a, l, info :: line == a + l && White(a) && Opens(l, info)
  }

  ghost predicate Mentions(text: string, word: string) {
    exists a, b :: text == a + word + b
  }

  ghost predicate SummaryWords(text: string) {
    || Mentions(text, "artifact_path") || Mentions(text, "\"summary\"") || Mentions(text, "key_messages")
    || Mentions(text, "key_findings") || Mentions(text, "recommended_next") || Mentions(text, "critical_assumptions")
  }

  /** Somewhere the line says structured, white space, summary, in any mix of cases. */
  ghost predicate SummaryLabel(line: string) {
    exists a, s, w, t, b :: line == a + s + w + t + b && AnyCase(s, "structured", "STRUCTURED") && w != "" && White(w)
                            && AnyCase(t, "summary", "SUMMARY")
  }

  lemma MentionsIs(text: string, word: string)
    ensures ContainsText(text, word) <==> Mentions(text, word)
  {
    if i: nat :| i <= |text| && OccursAt(text, word, i) {
      assert text == text[..i] + word + text[i + |word|..];
    }
    if a, b :| text == a + word + b {
      assert text[|a|..|a| + |word|] == word;
      assert OccursAt(text, word, |a|);
    }
  }

  lemma HintsAre(hint: string)
    ensures hint in SUMMARY_BLOCK_HINTS <==>
            hint in {"artifact_path", "\"summary\"", "key_messages", "key_findings", "recommended_next",
                     "critical_assumptions"}
  {
    var q := SUMMARY_BLOCK_HINTS;
    assert q[0] == "artifact_path" && q[1] == "\"summary\"" && q[2] == "key_messages" && q[3] == "key_findings";
    assert q[4] == "recommended_next" && q[5] == "critical_assumptions";
  }

  lemma SummaryWordsIs(text: string)
    ensures HasHint(text) <==> SummaryWords(text)
  {
    hide ContainsText, Mentions;
    forall hint ensures hint in SUMMARY_BLOCK_HINTS ==> (ContainsText(text, hint) <==> Mentions(text, hint)) {
      MentionsIs(text, hint);
    }
    forall hint
      ensures hint in SUMMARY_BLOCK_HINTS <==>
              hint in {"artifact_path", "\"summary\"", "key_messages", "key_findings", "recommended_next",
                       "critical_assumptions"}
    {
      HintsAre(hint);
    }
    assert HasHint(text) <==> exists hint :: hint in SUMMARY_BLOCK_HINTS && Mentions(text, hint);
  }

  lemma LowerSlice(line: string, i: nat, j: nat)
    requires i <= j <= |line|
    ensures Lower(line)[i..j] == Lower(line[i..j])
  {
    hide Lower, LowerChar;
    var low, part := Lower(line), line[i..j];
    forall k | 0 <= k < j - i ensures low[i..j][k] == Lower(part)[k] {
      assert low[i..j][k] == low[i + k] == LowerChar(line[i + k]);
      assert part[k] == line[i + k];
    }
  }

  lemma WordAt(line: string, i: nat, lower: string, upper: string)
    requires i + |lower| <= |line| && |lower| == |upper|
    requires forall k :: 0 <= k < |lower| ==> 'a' <= lower[k] <= 'z' && upper[k] as int == lower[k] as int - 32
    ensures OccursAt(Lower(line), lower, i) <==> AnyCase(line[i..i + |lower|], lower, upper)
  {
    hide Lower, AnyCase;
    LowerSlice(line, i, i + |lower|);
    LowerIs(line[i..i + |lower|], lower, upper);
    assert |Lower(line)| == |line|;
  }

  /** The label's words at positions i and j. */
  ghost predicate LabelAt(line: string, i: nat, j: nat) {
    && i + 10 < j && j + 7 <= |line| && AnyCase(line[i..i + 10], "structured", "STRUCTURED")
    && White(line[i + 10..j]) && AnyCase(line[j..j + 7], "summary", "SUMMARY")
  }

  lemma LabelAtIs(line: string, i: nat, j: nat)
    ensures LabelAt(line, i, j)
            <==> i <= |line| && j <= |line| && OccursAt(Lower(line), "structured", i) && i + 10 < j
                 && Blank(line[i + 10..j], PySpace) && OccursAt(Lower(line), "summary", j)
  {
    hide Lower, AnyCase, White, Blank, PySpace, OccursAt;
    assert |Lower(line)| == |line|;
    OccursInside(Lower(line), "summary", j);
    if i + 10 < j && j + 7 <= |line| {
      WordAt(line, i, "structured", "STRUCTURED");
      WordAt(line, j, "summary", "SUMMARY");
      WhiteIs(line[i + 10..j]);
    }
  }

  lemma OccursInside(s: string, p: string, i: nat)
    ensures OccursAt(s, p, i) ==> i + |p| <= |s|
  {
  }

  lemma SummaryLabelIs(line: string)
    ensures IsLabel(line) <==> SummaryLabel(line)
  {
    hide Lower, AnyCase, White, Blank, PySpace, OccursAt;
    if IsLabel(line) {
      var i: nat, j: nat :| i <= |line| && j <= |line| && OccursAt(Lower(line), "structured", i) && i + 10 < j
                            && Blank(line[i + 10..j], PySpace) && OccursAt(Lower(line), "summary", j);
      LabelAtIs(line, i, j);
      assert line == line[..i] + line[i..i + 10] + line[i + 10..j] + line[j..j + 7] + line[j + 7..];
    }
    if a, s, w, t, b :| line == a + s + w + t + b && AnyCase(s, "structured", "STRUCTURED") && w != "" && White(w)
                        && AnyCase(t, "summary", "SUMMARY") {
      LabelParts(line, a, s, w, t, b);
      LabelAtIs(line, |a|, |a| + 10 + |w|);
    }
  }

  lemma LabelParts(line: string, a: string, s: string, w: string, t: string, b: string)
    requires line == a + s + w + t + b && AnyCase(s, "structured", "STRUCTURED") && w != "" && White(w)
    requires AnyCase(t, "summary", "SUMMARY")
    ensures LabelAt(line, |a|, |a| + 10 + |w|)
  {
    assert |s| == 10 && |t| == 7;
    hide AnyCase, White;
    var i, j := |a|, |a| + 10 + |w|;
    assert line[i..i + 10] == s && line[i + 10..j] == w && line[j..j + 7] == t;
  }

  lemma OpensInsideIs(line: string)
    ensures FenceInfo(Trim(line)).Some? <==> OpensInside(line)
  {
    FenceMarks();
    hide PySpace, FenceInfo, LStrip, RStrip, Opens;
    var l := LStrip(line, PySpace);
    if FenceInfo(Trim(line)).Some? {
      var info := FenceInfo(Trim(line)).value;
      OpensIs(Trim(line), info);
      var a := LStripParts(line);
      var b := RStripParts(l);
      OpensLonger(Trim(line), info, b);
      assert line == a + l && Opens(l, info);
    }
    if a, m, info :| line == a + m && White(a) && Opens(m, info) {
      OpensMark(m, info);
      WhiteStartDropped(a, m);
      OpensTrimmed(m, info);
      OpensIs(RStrip(m, PySpace), info);
    }
  }

  lemma OpensMark(line: string, info: string)
    requires Opens(line, info)
    ensures line != "" && line[0] == '`'
  {
  }

  lemma OpensLonger(line: string, info: string, b: string)
    requires Opens(line, info) && White(b)
    ensures Opens(line + b, info)
  {
    var w :| line == "```" + info + w && White(w);
    assert line + b == "```" + info + (w + b) && White(w + b);
  }

  lemma OpensTrimmed(line: string, info: string)
    requires Opens(line, info)
    ensures Opens(RStrip(line, PySpace), info)
  {
    NoInfoIsWhite(info);
    hide PySpace;
    var w :| line == "```" + info + w && White(w);
    var mark := "```" + info;
    assert mark[|mark| - 1] == if info == "" then '`' else info[|info| - 1];
    WhiteEndDropped(mark, w);
    assert mark == "```" + info + "";
  }

  /** A document, perhaps a label, blank lines, and a last fenced block with a word of a summary in it. */
  ghost predicate SummaryText(lines: seq<string>, doc: seq<string>, title: seq<string>, blanks: seq<string>,
                              open: string, content: seq<string>, close: string) {
    && lines == doc + title + blanks + [open] + content + [close]
    && ((|title| == 1 && SummaryLabel(title[0]) && !White(title[0]))
        || (title == [] && (doc != [] ==> !White(doc[|doc| - 1]) && !SummaryLabel(doc[|doc| - 1]))))
    && (forall l :: l in blanks ==> White(l))
    && OpensInside(open) && (forall l :: l in content ==> !OpensInside(l))
    && SummaryWords(Join(content)) && Around(close, "```")
  }

  lemma WhiteTrim(line: string)
    ensures Trim(line) == "" <==> White(line)
  {
    WhiteIs(line);
    hide PySpace, White;
    if Trim(line) == "" {
      BlankLine(line);
    }
    if Blank(line, PySpace) {
      AllLeading(line);
      assert LStrip(line, PySpace) == "";
    }
  }

  lemma {:induction false} AllLeading(line: string)
    requires Blank(line, PySpace)
    ensures LeadingBlanks(line, PySpace) == |line|
  {
    hide PySpace;
    if line != "" {
      assert line[0] in line && forall c :: c in line[1..] ==> c in line;
      AllLeading(line[1..]);
    }
  }

  lemma LabelOkIs(doc: seq<string>, title: seq<string>)
    ensures LabelOk(doc, title) <==>
            || (|title| == 1 && SummaryLabel(title[0]) && !White(title[0]))
            || (title == [] && (doc != [] ==> !White(doc[|doc| - 1]) && !SummaryLabel(doc[|doc| - 1])))
  {
    hide IsLabel, SummaryLabel, Trim, White;
    if |title| == 1 {
      SummaryLabelIs(title[0]);
      WhiteTrim(title[0]);
    }
    if doc != [] {
      SummaryLabelIs(doc[|doc| - 1]);
      WhiteTrim(doc[|doc| - 1]);
    }
  }

  lemma SummaryTextIs(lines: seq<string>, doc: seq<string>, title: seq<string>, blanks: seq<string>,
                      open: string, content: seq<string>, close: string)
    ensures SummaryParts(lines, doc, title, blanks, open, content, close)
            <==> SummaryText(lines, doc, title, blanks, open, content, close)
  {
    FenceMarks();
    hide LabelOk, IsLabel, SummaryLabel, Trim, White, PySpace, Around, HasHint, SummaryWords, FenceInfo, OpensInside,
         Join;
    LabelOkIs(doc, title);
    forall l | l in blanks ensures Trim(l) == "" <==> White(l) {
      WhiteTrim(l);
    }
    OpensInsideIs(open);
    forall l | l in content ensures FenceInfo(Trim(l)).Some? <==> OpensInside(l) {
      OpensInsideIs(l);
    }
    SummaryWordsIs(Join(content));
    AroundIs(close, "```");
  }

  /** A trailing summary of any text, from the characters of its lines: stripping changes the text exactly when it
      ends in one, and then leaves the document before it. */
  lemma SummaryReads(text: string)
    ensures var lines := SplitLines(RStrip(text, PySpace));
            StripTrailingSummary(text) != text
            <==> exists doc, title, blanks, open, content, close ::
                   SummaryText(lines, doc, title, blanks, open, content, close)
    ensures forall doc, title, blanks, open, content, close ::
              SummaryText(SplitLines(RStrip(text, PySpace)), doc, title, blanks, open, content, close) ==>
              StripTrailingSummary(text) == RStrip(Join(doc), PySpace)
  {
    hide SplitLines, StripTrailingSummary, Join, SummaryParts, SummaryText, RStrip;
    SummaryChangesIff(text);
    forall doc, title, blanks, open, content, close
      ensures SummaryParts(SplitLines(RStrip(text, PySpace)), doc, title, blanks, open, content, close)
              <==> SummaryText(SplitLines(RStrip(text, PySpace)), doc, title, blanks, open, content, close)
    {
      SummaryTextIs(SplitLines(RStrip(text, PySpace)), doc, title, blanks, open, content, close);
    }
  }

  // ---------------------------------------------------------------- the whole envelope

  lemma FenceLineTrim(info: string)
    requires forall c :: c in info ==> InfoChar(c)
    ensures Trim(FENCE + info) == FENCE + info
  {
    var line := FENCE + info;
    assert line[|line| - 1] == '`' || line[|line| - 1] in info;
    StripStripped(line, PySpace);
  }

  lemma DashesStripped(s: string)
    requires s == DASHES
    ensures Trim(s) == s && NoNewline(s)
  {
    assert !PySpace('-');
    StripStripped(s, PySpace);
  }

  lemma EndFence(s: string)
    requires |s| >= 3 && s[|s| - 3..] == FENCE
    ensures RStrip(s, PySpace) == s
  {
    assert s[|s| - 1] == s[|s| - 3..][2] == '`';
  }

  lemma BlankLine(l: string)
    requires Trim(l) == ""
    ensures Blank(l, PySpace)
  {
    var pre, post := StripEnds(l, PySpace);
    assert l == pre + post;
  }

  lemma {:induction false} BlankLinesJoined(blanks: seq<string>)
    requires AllBlank(blanks)
    ensures Blank(Join(blanks), PySpace)
  {
    if blanks != [] {
      assert blanks[0] in blanks;
      BlankLine(blanks[0]);
      if |blanks| > 1 {
        assert forall l :: l in blanks[1..] ==> l in blanks;
        BlankLinesJoined(blanks[1..]);
        assert PySpace('\n');
      }
    }
  }

  lemma {:induction false} BlankEndDropped(s: string, post: string)
    requires Stripped(s, PySpace) && Blank(post, PySpace)
    ensures RStrip(s + post, PySpace) == s
    decreases |post|
  {
    if post == "" {
      assert s + post == s;
      assert TrailingBlanks(s, PySpace) == 0;
    } else {
      var t, init := s + post, post[..|post| - 1];
      assert t[|t| - 1] == post[|post| - 1] && post[|post| - 1] in post && t[..|t| - 1] == s + init;
      BlankEndDropped(s, init);
      assert TrailingBlanks(t, PySpace) == 1 + TrailingBlanks(s + init, PySpace);
    }
  }

  /** A document with blank lines after it. */
  lemma DocumentTrimmed(doc: string, blanks: seq<string>)
    requires doc != "" && Stripped(doc, PySpace) && AllBlank(blanks)
    ensures RStrip(Join(Split(doc) + blanks), PySpace) == doc
  {
    JoinSplit(doc);
    if blanks == [] {
      assert Split(doc) + blanks == Split(doc) && doc + "" == doc;
      BlankEndDropped(doc, "");
    } else {
      JoinConcat(Split(doc), blanks);
      BlankLinesJoined(blanks);
      Assoc(doc, NL, Join(blanks));
      assert PySpace('\n');
      BlankEndDropped(doc, NL + Join(blanks));
    }
  }

  lemma FirstLineNonempty(doc: string)
    requires doc != "" && Stripped(doc, PySpace)
    ensures Split(doc)[0] != ""
  {
    assert PySpace('\n');
  }

  /** What the role contracts put after a document: blank lines, perhaps a label, blank lines, the block. */
  function SummaryLines(tail: seq<string>, title: seq<string>, blanks: seq<string>, info: string,
                        content: seq<string>): seq<string> {
    tail + title + blanks + [FENCE + info] + content + [FENCE]
  }

  /** A block that ends a document: with a label, or after a document whose last line is none. */
  ghost predicate BlockOk(doc: string, tail: seq<string>, title: seq<string>, blanks: seq<string>,
                          info: string, content: seq<string>) {
    && Lines(tail) && AllBlank(tail) && Lines(title) && Lines(blanks) && AllBlank(blanks)
    && ((|title| == 1 && IsLabel(title[0]) && Trim(title[0]) != "")
        || (title == [] && tail == [] && LabelOk(Split(doc), [])))
    && (forall c :: c in info ==> InfoChar(c)) && Lines(content) && NoFence(content) && HasHint(Join(content))
  }

  lemma LinesConcat(a: seq<string>, b: seq<string>)
    requires Lines(a) && Lines(b)
    ensures Lines(a + b)
  {
  }

  lemma SummaryAssoc(doc: seq<string>, tail: seq<string>, title: seq<string>, blanks: seq<string>, info: string,
                     content: seq<string>)
    ensures doc + SummaryLines(tail, title, blanks, info, content)
            == doc + tail + title + blanks + [FENCE + info] + content + [FENCE]
  {
    Assoc(doc, tail, title);
    Assoc(doc, tail + title, blanks);
    Assoc(doc, tail + title + blanks, [FENCE + info]);
    Assoc(doc, tail + title + blanks + [FENCE + info], content);
    Assoc(doc, tail + title + blanks + [FENCE + info] + content, [FENCE]);
  }

  lemma BlockLines(doc: string, tail: seq<string>, title: seq<string>, blanks: seq<string>, info: string,
                   content: seq<string>)
    requires BlockOk(doc, tail, title, blanks, info, content)
    ensures var lines := Split(doc) + SummaryLines(tail, title, blanks, info, content);
            Lines(lines) && lines[|lines| - 1] == FENCE && lines[0] == Split(doc)[0]
    ensures SummaryParts(Split(doc) + SummaryLines(tail, title, blanks, info, content),
                         Split(doc) + tail, title, blanks, FENCE + info, content, FENCE)
  {
    FenceLine(info);
    FenceLineTrim(info);
    SummaryAssoc(Split(doc), tail, title, blanks, info, content);
    BlockLinesClean(doc, tail, title, blanks, info, content);
    hide Trim, FenceInfo, IsLabel, HasHint, Join, Split, Lines, SummaryLines, AllBlank, NoFence;
    assert title == [] ==> Split(doc) + tail == Split(doc);
  }

  lemma BlockLinesClean(doc: string, tail: seq<string>, title: seq<string>, blanks: seq<string>, info: string,
                        content: seq<string>)
    requires Lines(tail) && Lines(title) && Lines(blanks) && NoNewline(FENCE + info) && Lines(content)
    ensures Lines(Split(doc) + tail + title + blanks + [FENCE + info] + content + [FENCE])
  {
    assert Lines(Split(doc)) && Lines([FENCE + info]) && Lines([FENCE]);
    hide Lines, Split;
    LinesConcat(Split(doc), tail);
    LinesConcat(Split(doc) + tail, title);
    LinesConcat(Split(doc) + tail + title, blanks);
    LinesConcat(Split(doc) + tail + title + blanks, [FENCE + info]);
    LinesConcat(Split(doc) + tail + title + blanks + [FENCE + info], content);
    LinesConcat(Split(doc) + tail + title + blanks + [FENCE + info] + content, [FENCE]);
  }

  /** The document comes back when only the block follows it. */
  lemma BlockDropped(doc: string, tail: seq<string>, title: seq<string>, blanks: seq<string>, info: string,
                     content: seq<string>)
    requires doc != "" && Stripped(doc, PySpace) && BlockOk(doc, tail, title, blanks, info, content)
    ensures StripTrailingSummary(Join(Split(doc) + SummaryLines(tail, title, blanks, info, content))) == doc
  {
    var lines := Split(doc) + SummaryLines(tail, title, blanks, info, content);
    BlockLines(doc, tail, title, blanks, info, content);
    SplitLinesJoin(lines);
    JoinEnds(lines);
    EndFence(Join(lines));
    hide Trim, SplitLines, Join, RStrip, SummaryParts, Split, SummaryLines;
    SummaryDropped(Join(lines), Split(doc) + tail, title, blanks, FENCE + info, content, FENCE);
    DocumentTrimmed(doc, tail);
  }

  /** Everything the role contracts put around a document: frontmatter before, summary after. */
  function ContractLines(front: seq<string>, close: string, gap: seq<string>, rest: seq<string>): seq<string> {
    [DASHES] + front + [close] + gap + rest
  }

  lemma ContractParts(front: seq<string>, close: string, gap: seq<string>, rest: seq<string>)
    requires Lines(front) && NoneCloses(front) && NoNewline(close) && Closes(close) && AllEmpty(gap)
    requires Lines(rest) && rest != [] && rest[0] != "" && rest[|rest| - 1] == FENCE
    ensures var lines := ContractLines(front, close, gap, rest);
            SplitLines(Join(lines)) == lines && FrontmatterParts(lines, front, close, gap, rest)
  {
    var lines := ContractLines(front, close, gap, rest);
    DashesStripped(DASHES);
    hide Trim, Closes;
    forall l | l in lines ensures NoNewline(l) {
      assert l == DASHES || l in front || l == close || l in gap || l in rest;
    }
    assert lines[|lines| - 1] == rest[|rest| - 1];
    SplitLinesJoin(lines);
  }

  lemma EndsStripped(s: string)
    requires StartsWith(s, DASHES) && |s| >= 3 && s[|s| - 3..] == FENCE
    ensures Trim(s) == s
  {
    assert s[0] == s[..3][0] == '-';
    assert s[|s| - 1] == s[|s| - 3..][2] == '`';
    StripStripped(s, PySpace);
  }

  lemma EnvelopeUnwrapped(lines: seq<string>)
    requires lines != [] && lines[0] == DASHES && lines[|lines| - 1] == FENCE
    ensures StripWrappingFence(Fence("markdown", Join(lines))) == Join(lines)
  {
    JoinEnds(lines);
    EndsStripped(Join(lines));
    MarkdownPeelsOneLayer(Join(lines));
  }

  /** Normalisation recovers any trimmed, nonempty document from its full envelope: a markdown fence around
      frontmatter closed by --- or ..., any number of empty lines, the document, blank lines, a label or
      none, blank lines, and a summary block. */
  lemma NormalizeRecovers(front: seq<string>, close: string, gap: seq<string>, doc: string, tail: seq<string>,
                          title: seq<string>, blanks: seq<string>, info: string, content: seq<string>)
    requires Lines(front) && NoneCloses(front) && NoNewline(close) && Closes(close) && AllEmpty(gap)
    requires doc != "" && Stripped(doc, PySpace) && BlockOk(doc, tail, title, blanks, info, content)
    ensures var rest := Split(doc) + SummaryLines(tail, title, blanks, info, content);
            NormalizeArtifactMarkdown(Fence("markdown", Join(ContractLines(front, close, gap, rest)))) == doc
  {
    var rest := Split(doc) + SummaryLines(tail, title, blanks, info, content);
    BlockLines(doc, tail, title, blanks, info, content);
    FirstLineNonempty(doc);
    hide SummaryParts, BlockOk, Closes, FrontmatterParts, SummaryLines, Split, Trim, Join, SplitLines, Fence,
         StripWrappingFence, StripLeadingFrontmatter, StripTrailingSummary;
    ContractParts(front, close, gap, rest);
    var lines := ContractLines(front, close, gap, rest);
    EnvelopeUnwrapped(lines);
    FrontmatterDropped(Join(lines), front, close, gap, rest);
    BlockDropped(doc, tail, title, blanks, info, content);
    TrimStripped(doc);
  }

  lemma TrimStripped(doc: string)
    requires Stripped(doc, PySpace)
    ensures Trim(doc) == doc
  {
    StripStripped(doc, PySpace);
  }
}
