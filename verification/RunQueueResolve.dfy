/** What a resolve leaves of any pending entry, in any file: the same id, no longer pending. */
module RunQueueResolve {
  import opened Text
  import opened QueueFormat
  import opened RunQueue
  import opened RunQueueLaws
  import opened RunQueueFile
  import opened RunQueueInput

  function Rewrite(s: string): string {
    ReplaceAll(s, STATUS_PENDING, STATUS_RESOLVED)
  }

  function RewriteAll(words: seq<string>): (r: seq<string>)
    ensures |r| == |words| && forall i :: 0 <= i < |r| ==> r[i] == Rewrite(words[i])
  {
    if words == [] then [] else RewriteAll(words[..|words| - 1]) + [Rewrite(words[|words| - 1])]
  }

  /** Rewriting goes word by word. */
  lemma {:induction false} RewriteSpaced(words: seq<string>)
    requires words != []
    ensures Rewrite(Spaced(words)) == Spaced(RewriteAll(words))
  {
    if |words| == 1 {
      assert RewriteAll(words)[0] == Rewrite(words[0]);
    } else {
      var n := |words| - 1;
      RewriteSpaced(words[..n]);
      assert ' ' !in STATUS_PENDING;
      ReplaceAtSpace(Spaced(words[..n]), words[n], STATUS_PENDING, STATUS_RESOLVED);
      assert RewriteAll(words)[..n] == RewriteAll(words[..n]);
    }
  }

  lemma {:induction false} RewriteSkips(prefix: string, s: string)
    requires forall i: nat :: i < |prefix| ==> Mismatch(prefix, i, STATUS_PENDING)
    ensures Rewrite(prefix + s) == prefix + Rewrite(s)
  {
    hide Mismatch, StartsWith, ReplaceAll;
    if prefix == "" {
      assert prefix + s == s && "" + Rewrite(s) == Rewrite(s);
    } else {
      var first, more := [prefix[0]], prefix[1..];
      MismatchedStart(prefix, s, STATUS_PENDING);
      ReplaceMiss(prefix + s, STATUS_PENDING, STATUS_RESOLVED);
      assert (prefix + s)[1..] == more + s;
      forall i: nat | i < |more| ensures Mismatch(more, i, STATUS_PENDING) {
        MismatchTail(prefix, i, STATUS_PENDING);
      }
      RewriteSkips(more, s);
      hide Rewrite;
      Assoc(first, more, Rewrite(s));
      assert first + more == prefix;
    }
  }

  lemma LabelsKept(s: string)
    ensures Rewrite("pr:" + s) == "pr:" + Rewrite(s) && Rewrite("phase:" + s) == "phase:" + Rewrite(s)
  {
    forall i: nat | i < 3 ensures Mismatch("pr:", i, STATUS_PENDING) {
      assert "pr:"[i + 0] != STATUS_PENDING[0];
    }
    RewriteSkips("pr:", s);
    forall i: nat | i < 6 ensures Mismatch("phase:", i, STATUS_PENDING) {
      var j := if i == 3 then 1 else 0;
      assert "phase:"[i + j] != STATUS_PENDING[j];
    }
    RewriteSkips("phase:", s);
  }

  lemma WordKept(s: string)
    requires ':' !in s
    ensures Rewrite(s) == s
  {
    NoColonNoStatus(s);
    ReplaceLengthens(s, STATUS_PENDING, STATUS_RESOLVED);
  }

  lemma {:induction false} RewriteChars(s: string)
    ensures forall c :: c in Rewrite(s) ==> c in s || c in STATUS_RESOLVED
    ensures s != "" ==> Rewrite(s) != ""
    decreases |s|
  {
    if |s| < |STATUS_PENDING| {
    } else if StartsWith(s, STATUS_PENDING) {
      RewriteChars(s[|STATUS_PENDING|..]);
      assert forall c :: c in s[|STATUS_PENDING|..] ==> c in s;
    } else {
      RewriteChars(s[1..]);
      ReplaceMiss(s, STATUS_PENDING, STATUS_RESOLVED);
      assert s == [s[0]] + s[1..];
    }
  }

  lemma FieldKept(s: string)
    requires IsField(s) && NoNewline(s)
    ensures IsField(Rewrite(s)) && NoNewline(Rewrite(s))
  {
    RewriteChars(s);
    assert ' ' !in STATUS_RESOLVED && '\n' !in STATUS_RESOLVED;
    hide ReplaceAll;
  }

  /** The rest after the status does not start with a word character, so its first character stays. */
  lemma RestKept(rest: string)
    requires (rest != "" ==> !WordChar(rest[0])) && NoNewline(rest)
    ensures NoNewline(Rewrite(rest)) && (Rewrite(rest) != "" ==> !WordChar(Rewrite(rest)[0]))
  {
    RewriteChars(rest);
    assert '\n' !in STATUS_RESOLVED;
    if rest != "" {
      assert !StartsWith(rest, STATUS_PENDING) by {
        assert STATUS_PENDING[0] == 's' && WordChar('s');
      }
      ReplaceMiss(rest, STATUS_PENDING, STATUS_RESOLVED);
    }
  }

  lemma StatusRewritten(rest: string)
    ensures Rewrite("status:" + PENDING + rest) == "status:" + RESOLVED + Rewrite(rest)
  {
    var s := STATUS_PENDING + rest;
    assert "status:" + PENDING == STATUS_PENDING && "status:" + RESOLVED == STATUS_RESOLVED;
    assert StartsWith(s, STATUS_PENDING) && s[|STATUS_PENDING|..] == rest;
  }

  /** The header a resolve makes of a pending one, whatever its fields hold. */
  function Rewritten(h: Header): Header {
    Header(h.id, h.kind, Rewrite(h.pr), Rewrite(h.phase), Rewrite(h.ts), RESOLVED, Rewrite(h.rest))
  }

  lemma WordsRewritten(h: Header)
    requires IsHeader(h)
    ensures RewriteAll(HeaderWords(h)) == HeaderWords(Rewritten(h))
  {
    NoColon(h);
    WordKept("###");
    WordKept("|");
    WordKept(h.id);
    WordKept(h.kind);
    LabelsKept(h.pr);
    LabelsKept(h.phase);
    hide Rewrite, RewriteAll, IsHeader;
    var r, w := RewriteAll(HeaderWords(h)), HeaderWords(Rewritten(h));
    forall i | 0 <= i < 11 ensures r[i] == w[i] {
    }
  }

  /** Rewriting a pending header's line gives the line of the rewritten header. */
  lemma LineRewritten(h: Header)
    requires IsHeader(h) && h.status == PENDING
    ensures Rewrite(HeaderLine(h)) == HeaderLine(Rewritten(h))
  {
    var h' := Rewritten(h);
    HeaderIsSpaced(h);
    HeaderIsSpaced(h');
    WordsRewritten(h);
    RewriteSpaced(HeaderWords(h));
    StatusRewritten(h.rest);
    var end := "status:" + h.status + h.rest;
    assert ' ' !in STATUS_PENDING;
    ReplaceAtSpace(Spaced(HeaderWords(h)), end, STATUS_PENDING, STATUS_RESOLVED);
    hide ReplaceAll, Spaced, HeaderLine, HeaderWords, RewriteAll, IsHeader;
  }

  lemma RewrittenFits(h: Header)
    requires IsHeader(h) && NoNewline(h.pr) && NoNewline(h.phase) && NoNewline(h.ts) && NoNewline(h.rest)
    ensures IsHeader(Rewritten(h)) && NoNewline(HeaderLine(Rewritten(h)))
  {
    FieldKept(h.pr);
    FieldKept(h.phase);
    FieldKept(h.ts);
    RestKept(h.rest);
    IdClean(h.id);
    hide Rewrite, HeaderLine, IsId;
    assert IsWord(RESOLVED);
    HeaderLineClean(Rewritten(h));
  }

  /** More text after the rest. */
  lemma LongerRest(h: Header, more: string)
    ensures HeaderLine(h) + more == HeaderLine(h.(rest := h.rest + more))
  {
    var h' := h.(rest := h.rest + more);
    HeaderLineText(h);
    HeaderLineText(h');
    hide HeaderLine;
    var start := "### " + h.id + " | " + h.kind + " | pr:" + h.pr + " | phase:" + h.phase + " | " + h.ts
                 + " | status:" + h.status;
    Assoc(start, h.rest, more);
  }

  /** The first line of what a resolve writes is an entry with the same id that is not pending. */
  lemma FirstLineResolved(line: string, op: Op, h: Header)
    requires op.Resolve? && NoNewline(line) && ParseHeader(line) == Some(h) && h.status == PENDING
    ensures var first := Split(ResolvedLine(line, op))[0];
            && ParseHeader(first).Some?
            && ParseHeader(first).value.id == h.id && ParseHeader(first).value.status == RESOLVED
  {
    assert ResolvedLine(line, op) == Rewrite(line) + Resolution(op);
    hide ParseHeader, HeaderLine, IsHeader, Rewrite, Split, ResolvedLine;
    HeaderMatchesIff(line, h);
    AllOnTheLine(h);
    LineRewritten(h);
    RewrittenFits(h);
    var head, tail := " | resolved:", op.at + " | verdict:" + VerdictText(op.verdict);
    assert Resolution(op) == head + tail;
    var start := HeaderLine(Rewritten(h)) + head;
    Assoc(HeaderLine(Rewritten(h)), head, tail);
    SplitWithHead(start, tail);
    var x := Split(tail)[0];
    Assoc(HeaderLine(Rewritten(h)), head, x);
    LongerRest(Rewritten(h), head + x);
    LongerFits(Rewritten(h), head + x);
    PrintedHeaderParses(Rewritten(h).(rest := Rewritten(h).rest + (head + x)));
  }

  lemma LongerFits(h: Header, more: string)
    requires IsHeader(h) && more != "" && more[0] == ' '
    ensures IsHeader(h.(rest := h.rest + more))
  {
  }

  lemma AllOnTheLine(h: Header)
    requires NoNewline(HeaderLine(h))
    ensures NoNewline(h.pr) && NoNewline(h.phase) && NoNewline(h.ts) && NoNewline(h.rest)
  {
    FieldsOnTheLine(h);
    HeaderLineText(h);
    hide HeaderLine;
    var a := "### " + h.id + " | " + h.kind + " | pr:" + h.pr + " | phase:" + h.phase + " | " + h.ts
             + " | status:" + h.status;
    assert HeaderLine(h) == a + h.rest;
  }

  lemma SplicedAt(lines: seq<string>, k: nat, part: seq<string>, all: seq<string>)
    requires k < |lines| && part != [] && Spliced(lines, k, part, all)
    ensures k < |all| && all[k] == part[0] && forall i :: 0 <= i < k ==> all[i] == lines[i]
  {
  }

  /** After a resolve the first entry with the id is not pending. */
  lemma NotResolvableTwice(text: string, op: Op)
    requires op.Resolve? && Resolvable(SplitLines(text), op.target)
    ensures !Resolvable(SplitLines(ResolveText(text, op)), op.target)
  {
    var lines, after := SplitLines(text), SplitLines(ResolveText(text, op));
    var k := FindEntry(lines, op.target);
    var h := ParseHeader(lines[k]).value;
    assert lines[k] in lines && h.id == op.target && h.status == PENDING;
    hide SplitLines, Split, ResolvedLine, NoteLines, Resplit, ResolveText, ParseHeader, Spliced;
    LinesAfterResolve(text, op);
    FirstLineResolved(lines[k], op, h);
    SplicedAt(lines, k, Split(ResolvedLine(lines[k], op)) + Resplit(NoteLines(op)), after);
    hide FindEntry;
    forall i | 0 <= i < k ensures !IsEntry(after[i], op.target) {
      assert !IsEntry(lines[i], op.target);
    }
    FindEntryIs(after, op.target, k);
    assert PENDING[0] == 'p' && RESOLVED[0] == 'r';
  }

  /** On any file, resolving an id again changes nothing, whatever the verdict, the note and the fields. */
  lemma SecondResolveChangesNothing(text: string, first: Op, second: Op)
    requires first.Resolve? && second.Resolve? && first.target == second.target
    ensures ResolveText(ResolveText(text, first), second) == ResolveText(text, first)
  {
    if Resolvable(SplitLines(text), first.target) {
      NotResolvableTwice(text, first);
    }
    hide Resolvable, SplitLines;
  }
}
