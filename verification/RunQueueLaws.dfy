/** Header lines under rewriting, headers and the entries they stand for, and what histories keep. */
module RunQueueLaws {
  import opened Text
  import opened QueueFormat
  import opened RunQueue

  // ---------------------------------------------------------------- rewriting the status

  /** Words with one space between them. */
  function Spaced(words: seq<string>): string
    requires words != []
  {
    if |words| == 1 then words[0] else Spaced(words[..|words| - 1]) + " " + words[|words| - 1]
  }

  lemma {:induction false} SpacedContains(words: seq<string>, p: string)
    requires words != [] && p != "" && ' ' !in p
    ensures ContainsText(Spaced(words), p) <==> exists w :: w in words && ContainsText(w, p)
  {
    if |words| > 1 {
      var init, last := words[..|words| - 1], words[|words| - 1];
      SpacedContains(init, p);
      ContainsAtSpace(Spaced(init), last, p);
      assert words == init + [last];
    }
  }

  /** The text differs from p somewhere before its end, starting from i. */
  ghost predicate Mismatch(s: string, i: nat, p: string) {
    exists j: nat :: i + j < |s| && j < |p| && s[i + j] != p[j]
  }

  lemma MismatchTail(prefix: string, i: nat, p: string)
    requires prefix != "" && Mismatch(prefix, i + 1, p)
    ensures Mismatch(prefix[1..], i, p)
  {
    var k: nat :| i + 1 + k < |prefix| && k < |p| && prefix[i + 1 + k] != p[k];
    assert prefix[1..][i + k] != p[k];
  }

  lemma MismatchedStart(prefix: string, s: string, p: string)
    requires Mismatch(prefix, 0, p)
    ensures !StartsWith(prefix + s, p)
  {
    var j: nat :| j < |prefix| && j < |p| && prefix[j] != p[j];
    var t := prefix + s;
    if |p| <= |t| {
      assert t[..|p|][j] == t[j] == prefix[j];
    }
  }

  /** No occurrence can start inside such a prefix. */
  lemma {:induction false} PrefixSkipped(prefix: string, s: string, p: string)
    requires forall i: nat :: i < |prefix| ==> Mismatch(prefix, i, p)
    ensures ContainsText(prefix + s, p) <==> ContainsText(s, p)
  {
    hide Mismatch, ContainsText, StartsWith;
    if prefix == "" {
      assert prefix + s == s;
    } else {
      MismatchedStart(prefix, s, p);
      ContainsTail(prefix + s, p);
      assert (prefix + s)[1..] == prefix[1..] + s;
      forall i: nat | i < |prefix[1..]| ensures Mismatch(prefix[1..], i, p) {
        MismatchTail(prefix, i, p);
      }
      PrefixSkipped(prefix[1..], s, p);
    }
  }

  lemma LabelsSkipped(s: string)
    ensures ContainsText("pr:" + s, STATUS_PENDING) <==> ContainsText(s, STATUS_PENDING)
    ensures ContainsText("phase:" + s, STATUS_PENDING) <==> ContainsText(s, STATUS_PENDING)
    ensures ContainsText("resolved:" + s, VERDICT_APPROVED) <==> ContainsText(s, VERDICT_APPROVED)
  {
    forall i: nat | i < 3 ensures Mismatch("pr:", i, STATUS_PENDING) {
      assert "pr:"[i + 0] != STATUS_PENDING[0];
    }
    PrefixSkipped("pr:", s, STATUS_PENDING);
    forall i: nat | i < 6 ensures Mismatch("phase:", i, STATUS_PENDING) {
      var j := if i == 3 then 1 else 0;
      assert "phase:"[i + j] != STATUS_PENDING[j];
    }
    PrefixSkipped("phase:", s, STATUS_PENDING);
    forall i: nat | i < 9 ensures Mismatch("resolved:", i, VERDICT_APPROVED) {
      var j := if i == 5 then 2 else 0;
      assert "resolved:"[i + j] != VERDICT_APPROVED[j];
    }
    PrefixSkipped("resolved:", s, VERDICT_APPROVED);
  }

  lemma NoColonNoStatus(s: string)
    requires ':' !in s
    ensures !ContainsText(s, STATUS_PENDING)
  {
    forall i: nat | i <= |s| ensures !OccursAt(s, STATUS_PENDING, i) {
      if i + |STATUS_PENDING| <= |s| {
        assert s[i + 6] in s;
        assert s[i..i + |STATUS_PENDING|][6] == s[i + 6];
        assert STATUS_PENDING[6] == ':';
      }
    }
  }

  lemma NoColon(h: Header)
    requires IsHeader(h)
    ensures ':' !in h.id && ':' !in h.kind
  {
    assert !KindChar(':');
    IdChars(h.id);
  }

  /** The words of a header before its status. */
  function HeaderWords(h: Header): seq<string> {
    ["###", h.id, "|", h.kind, "|", "pr:" + h.pr, "|", "phase:" + h.phase, "|", h.ts, "|"]
  }

  lemma BarThen(p: string, tag: string, x: string)
    ensures p + " " + "|" + " " + (tag + x) == p + (" | " + tag) + x
  {
  }

  lemma SpacedStep(w: seq<string>, k: nat)
    requires 0 < k < |w|
    ensures Spaced(w[..k + 1]) == Spaced(w[..k]) + " " + w[k]
  {
    assert w[..k + 1][..k] == w[..k];
  }

  lemma FiveMore(w: seq<string>, k: nat, start: string)
    requires 0 < k && k + 5 <= |w| && Spaced(w[..k]) == start
    ensures Spaced(w[..k + 5])
            == start + " " + w[k] + " " + w[k + 1] + " " + w[k + 2] + " " + w[k + 3] + " " + w[k + 4]
  {
    hide Spaced;
    SpacedStep(w, k);
    SpacedStep(w, k + 1);
    SpacedStep(w, k + 2);
    SpacedStep(w, k + 3);
    SpacedStep(w, k + 4);
  }

  lemma ElevenSpaced(w: seq<string>)
    requires |w| == 11
    ensures Spaced(w) == w[0] + " " + w[1] + " " + w[2] + " " + w[3] + " " + w[4] + " " + w[5] + " " + w[6] + " " + w[7]
                         + " " + w[8] + " " + w[9] + " " + w[10]
  {
    assert w[..11] == w && Spaced(w[..1]) == w[0];
    hide Spaced;
    FiveMore(w, 1, w[0]);
    FiveMore(w, 6, Spaced(w[..6]));
  }

  lemma HeaderIsSpaced(h: Header)
    ensures HeaderLine(h) == Spaced(HeaderWords(h)) + " " + ("status:" + h.status + h.rest)
  {
    HeaderLineText(h);
    ElevenSpaced(HeaderWords(h));
    hide Spaced, HeaderLine;
    var a := "###" + " " + h.id;
    assert a == "### " + h.id;
    var b := a + " " + "|" + " " + h.kind;
    BarThen(a, "", h.kind);
    assert "" + h.kind == h.kind && " | " + "" == " | ";
    var c := b + " " + "|" + " " + ("pr:" + h.pr);
    BarThen(b, "pr:", h.pr);
    var d := c + " " + "|" + " " + ("phase:" + h.phase);
    BarThen(c, "phase:", h.phase);
    var e := d + " " + "|" + " " + h.ts;
    BarThen(d, "", h.ts);
    assert "" + h.ts == h.ts;
    BarThen(e, "status:", h.status + h.rest);
    Assoc("status:", h.status, h.rest);
    Assoc(e + (" | " + "status:"), h.status, h.rest);
    assert " | " + "pr:" == " | pr:" && " | " + "phase:" == " | phase:" && " | " + "status:" == " | status:";
  }

  lemma HeaderWordsContain(h: Header)
    requires IsHeader(h)
    ensures ContainsText(Spaced(HeaderWords(h)), STATUS_PENDING)
            <==> ContainsText(h.pr, STATUS_PENDING) || ContainsText(h.phase, STATUS_PENDING)
                 || ContainsText(h.ts, STATUS_PENDING)
  {
    var w := HeaderWords(h);
    assert ' ' !in STATUS_PENDING;
    SpacedContains(w, STATUS_PENDING);
    LabelsSkipped(h.pr);
    LabelsSkipped(h.phase);
    NoColon(h);
    NoColonNoStatus(h.id);
    NoColonNoStatus(h.kind);
    NoColonNoStatus("###");
    NoColonNoStatus("|");
    hide ContainsText, Spaced, IsHeader;
    assert w[5] in w && w[7] in w && w[9] in w;
  }

  /** The header as the resolution is meant to leave it. */
  function ResolvedHeader(h: Header, op: Op): Header
    requires op.Resolve?
  {
    h.(status := RESOLVED, rest := Resolution(op))
  }

  /** Resolving rewrites exactly the status when no field holds the text being replaced, and only then. */
  lemma ResolveRewritesStatusIff(h: Header, op: Op)
    requires IsHeader(h) && h.status == PENDING && h.rest == "" && op.Resolve?
    ensures ResolvedLine(HeaderLine(h), op) == HeaderLine(ResolvedHeader(h, op))
            <==> !ContainsText(h.pr, STATUS_PENDING) && !ContainsText(h.phase, STATUS_PENDING)
                 && !ContainsText(h.ts, STATUS_PENDING)
  {
    hide ReplaceAll, Spaced, ContainsText, HeaderLine, IsHeader, Resolution;
    var h' := ResolvedHeader(h, op);
    assert HeaderWords(h') == HeaderWords(h) && h'.status == RESOLVED && h'.rest == Resolution(op);
    hide HeaderWords, ResolvedHeader;
    var w := Spaced(HeaderWords(h));
    HeaderIsSpaced(h);
    HeaderIsSpaced(h');
    HeaderWordsContain(h);
    assert "status:" + h.status + h.rest == STATUS_PENDING;
    assert "status:" + RESOLVED + Resolution(op) == STATUS_RESOLVED + Resolution(op) by {
      assert "status:" + RESOLVED == STATUS_RESOLVED;
    }
    assert ' ' !in STATUS_PENDING;
    ReplaceAtSpace(w, STATUS_PENDING, STATUS_PENDING, STATUS_RESOLVED);
    StatusReplaced();
    ReplaceLengthens(w, STATUS_PENDING, STATUS_RESOLVED);
    RewrittenLine(w, ReplaceAll(w, STATUS_PENDING, STATUS_RESOLVED), STATUS_RESOLVED, Resolution(op));
  }

  lemma RewrittenLine(w: string, r: string, status: string, resolution: string)
    requires r == w || |r| > |w|
    ensures r + " " + status + resolution == w + " " + (status + resolution) <==> r == w
  {
    Assoc(w + " ", status, resolution);
    if r != w {
      assert |r + " " + status + resolution| > |w + " " + (status + resolution)|;
    }
  }

  lemma StatusReplaced()
    ensures ReplaceAll(STATUS_PENDING, STATUS_PENDING, STATUS_RESOLVED) == STATUS_RESOLVED
  {
    var s := STATUS_PENDING;
    assert s[|s|..] == "" && StartsWith(s, s);
    assert ReplaceAll("", s, STATUS_RESOLVED) == "";
  }

  /** The verdict is what the resolution's text says, unless the time stamp says otherwise. */
  lemma ResolutionSaysVerdict(op: Op)
    requires op.Resolve? && !ContainsText(op.at, VERDICT_APPROVED)
    ensures ContainsText(Resolution(op), VERDICT_APPROVED) <==> op.verdict == Approved
  {
    var a, b, p := "resolved:" + op.at, "verdict:" + VerdictText(op.verdict), VERDICT_APPROVED;
    ResolutionWords(op.at, VerdictText(op.verdict));
    assert ' ' !in p;
    ContainsAtSpace("", "|", p);
    ContainsAtSpace("" + " " + "|", a, p);
    ContainsAtSpace("" + " " + "|" + " " + a, "|", p);
    ContainsAtSpace("" + " " + "|" + " " + a + " " + "|", b, p);
    LabelsSkipped(op.at);
    ShorterHasNone("", p);
    ShorterHasNone("|", p);
    VerdictContains(op.verdict);
  }

  lemma ResolutionWords(at: string, verdict: string)
    ensures " | resolved:" + at + " | verdict:" + verdict
            == "" + " " + "|" + " " + ("resolved:" + at) + " " + "|" + " " + ("verdict:" + verdict)
  {
    var a := "" + " " + "|" + " " + ("resolved:" + at);
    BarThen("", "resolved:", at);
    assert " | " + "resolved:" == " | resolved:" && " | " + "verdict:" == " | verdict:";
    assert "" + (" | " + "resolved:") + at == " | resolved:" + at;
    BarThen(a, "verdict:", verdict);
  }

  lemma VerdictContains(v: Verdict)
    ensures ContainsText("verdict:" + VerdictText(v), VERDICT_APPROVED) <==> v == Approved
  {
    var b := "verdict:" + VerdictText(v);
    assert |b| == 16 && b[0..16] == b;
    if v == Approved {
      assert b == VERDICT_APPROVED;
      assert OccursAt(b, VERDICT_APPROVED, 0);
    } else {
      assert b[8] == 'r' && VERDICT_APPROVED[8] == 'a';
      forall i: nat | i <= |b| ensures !OccursAt(b, VERDICT_APPROVED, i) {
      }
    }
  }

  // ---------------------------------------------------------------- headers and entries

  /** A header line that stands for an entry. */
  ghost predicate StandsFor(h: Header, e: Entry) {
    && h.id == e.id && h.kind == e.kind && h.pr == e.pr && h.phase == e.phase && h.ts == e.ts
    && CleanField(h.pr) && CleanField(h.phase) && CleanField(h.ts)
    && (e.outcome == None ==> h.status == PENDING && h.rest == "")
    && (e.outcome != None ==>
          h.status == RESOLVED && (ContainsText(h.rest, VERDICT_APPROVED) <==> e.outcome == Some(Approved)))
  }

  // ---------------------------------------------------------------- add

  ghost predicate PlainLine(l: string) {
    NoNewline(l) && !StartsWith(l, "### ")
  }

  lemma BulletPlain(head: string, text: string)
    requires NoNewline(text) && NoNewline(head) && head != "" && head[0] == '-'
    ensures PlainLine(head + text)
  {
    assert "### "[0] == '#';
    assert |head + text| >= 4 ==> (head + text)[..4][0] == '-';
  }

  ghost predicate LineClean(lines: seq<string>) {
    forall l :: l in lines ==> NoNewline(l)
  }

  lemma {:induction false} PrintedClean(lits: seq<string>, fields: seq<string>, rest: string)
    requires |lits| == |fields| && LineClean(lits) && LineClean(fields) && NoNewline(rest)
    ensures NoNewline(PrintFields(lits, fields, rest))
  {
    if lits != [] {
      assert lits[0] in lits && fields[0] in fields;
      PrintedClean(lits[1..], fields[1..], rest);
    }
  }

  lemma HeaderLineClean(h: Header)
    requires IsKind(h.kind) && IsWord(h.status)
    requires NoNewline(h.id) && NoNewline(h.pr) && NoNewline(h.phase) && NoNewline(h.ts) && NoNewline(h.rest)
    ensures NoNewline(HeaderLine(h))
  {
    assert !KindChar('\n') && !WordChar('\n');
    assert NoNewline(h.kind) && NoNewline(h.status);
    hide PrintFields;
    PrintedClean(LITERALS, [h.id, h.kind, h.pr, h.phase, h.ts], STATUS + (h.status + h.rest));
  }

  lemma IdClean(id: string)
    requires IsId(id)
    ensures Tight(id)
  {
    IdChars(id);
  }

  /** A header of tight fields is read back as itself, or, when it does not have the form, not at all. */
  lemma TightHeaderParses(h: Header)
    requires Tight(h.id) && IsKind(h.kind) && Tight(h.pr) && Tight(h.phase) && Tight(h.ts) && h.status == PENDING
             && h.rest == ""
    ensures ParseHeader(HeaderLine(h)) == if IsHeader(h) then Some(h) else None
  {
    assert !KindChar(' ') && ' ' !in h.kind;
    var fields := [h.id, h.kind, h.pr, h.phase, h.ts];
    FieldsTaken(LITERALS, fields, STATUS + (h.status + h.rest));
    WordEndOf(PENDING, "");
    hide TakeFields, PrintFields, IsHeader, WordEnd, Tight;
    assert PENDING + "" == PENDING && h.status + h.rest == PENDING;
    StatusTaken(h, HeaderLine(h));
  }

  lemma StatusTaken(h: Header, line: string)
    requires TakeFields(line, LITERALS) == Some(([h.id, h.kind, h.pr, h.phase, h.ts], STATUS + PENDING))
    requires WordEnd(PENDING) == |PENDING| && h.status == PENDING && h.rest == ""
    ensures ParseHeader(line) == if IsHeader(h) then Some(h) else None
  {
    hide TakeFields, IsHeader, WordEnd;
    assert (STATUS + PENDING)[..|STATUS|] == STATUS && (STATUS + PENDING)[|STATUS|..] == PENDING;
    assert PENDING[..7] == h.status && PENDING[7..] == h.rest;
  }

  lemma HeadClean()
    ensures LineClean(HEADER_LINES)
  {
    assert NoNewline(HEADER_LINES[0]) && NoNewline(HEADER_LINES[1]) && NoNewline(HEADER_LINES[2]);
  }

  lemma NotMarked(l: string)
    requires |l| < 4 || l[0] != '#' || l[1] != '#'
    ensures !StartsWith(l, "### ")
  {
    assert |l| >= 4 ==> l[..4][0] == l[0] && l[..4][1] == l[1];
  }

  lemma {:induction false} UndashedChars(s: string)
    ensures forall c :: c in Undashed(s) ==> c in s
  {
    if s != "" {
      UndashedChars(s[1..]);
    }
  }

  lemma DecimalTight(n: nat)
    ensures Tight(Decimal(n))
  {
  }

  /** An id made from tight texts is tight. */
  lemma ChosenIdTight(ids: seq<string>, op: Op)
    requires op.Add? && Tight(op.ts) && (op.id.Some? ==> Tight(op.id.value))
    ensures Tight(IdFor(ids, op))
  {
    UndashedChars(if |op.ts| < 10 then op.ts else op.ts[..10]);
    DecimalTight(MaxNumber(ids, DateOf(op.ts)) + 1);
    hide Undashed, Decimal, MaxNumber;
  }

  // ---------------------------------------------------------------- resolve

  lemma ResolvedHeaderOk(h: Header, op: Op)
    requires IsHeader(h) && op.Resolve?
    ensures IsHeader(ResolvedHeader(h, op))
  {
    assert Resolution(op)[0] == ' ';
  }

  lemma ResolutionClean(op: Op)
    requires op.Resolve? && NoNewline(op.at)
    ensures NoNewline(Resolution(op))
  {
  }

  lemma ResolvedHeaderClean(h: Header, op: Op)
    requires op.Resolve? && NoNewline(op.at) && IsHeader(h) && h.status == RESOLVED && h.rest == Resolution(op)
    requires NoNewline(h.pr) && NoNewline(h.phase) && NoNewline(h.ts)
    ensures NoNewline(HeaderLine(h))
  {
    IdClean(h.id);
    ResolutionClean(op);
    hide HeaderLine, Resolution, IsId, IsField;
    HeaderLineClean(h);
  }

  // ---------------------------------------------------------------- histories

  /** The entry is the same, and keeps a verdict it has. */
  ghost predicate KeptEntry(e: Entry, e': Entry) {
    e'.(outcome := None) == e.(outcome := None) && (e.outcome.Some? ==> e' == e)
  }

  lemma StepKeepsEntry(entries: seq<Entry>, op: Op, i: nat)
    requires i < |entries|
    ensures i < |Step(entries, op)| && KeptEntry(entries[i], Step(entries, op)[i])
  {
    hide NextId, Ids, DateOf;
  }

  /** An entry leaves pending at most once: once given, a verdict stays, whatever follows, and no entry
      is ever removed, moved or renamed. */
  lemma {:induction false} VerdictIsFinal(ops: seq<Op>, more: seq<Op>, i: nat)
    requires i < |History(ops)|
    ensures i < |History(ops + more)| && KeptEntry(History(ops)[i], History(ops + more)[i])
    decreases |more|
  {
    hide Step;
    if more == [] {
      assert ops + more == ops;
    } else {
      var init, op := more[..|more| - 1], more[|more| - 1];
      VerdictIsFinal(ops, init, i);
      assert (ops + more)[..|ops + more| - 1] == ops + init;
      assert History(ops + more) == Step(History(ops + init), op);
      hide History;
      StepKeepsEntry(History(ops + init), op, i);
    }
  }

  lemma FindIdIs(entries: seq<Entry>, id: string, k: nat)
    requires k <= |entries| && (k < |entries| ==> entries[k].id == id) && forall i :: 0 <= i < k ==> entries[i].id != id
    ensures FindId(entries, id) == k
  {
  }

  ghost predicate DistinctIds(entries: seq<Entry>) {
    forall i, j :: 0 <= i < j < |entries| ==> entries[i].id != entries[j].id
  }

  lemma AppendDistinct(entries: seq<Entry>, e: Entry)
    requires DistinctIds(entries) && e.id !in Ids(entries)
    ensures DistinctIds(entries + [e])
  {
    forall i | 0 <= i < |entries| ensures entries[i].id != e.id {
      assert Ids(entries)[i] in Ids(entries);
    }
  }

  lemma StepKeepsDistinct(entries: seq<Entry>, op: Op)
    requires DistinctIds(entries) && (op.Add? ==> op.id == None)
    ensures DistinctIds(Step(entries, op))
  {
    hide NextId, Ids, RoomOn, IsHeader, DateOf;
    if op.Add? {
      NextIdFresh(Ids(entries), DateOf(op.ts));
      var e := Entry(NextId(Ids(entries), DateOf(op.ts)), op.kind, op.pr, op.phase, op.ts, None);
      if IsHeader(NewHeader(op, e.id)) {
        HeaderHasId(NewHeader(op, e.id));
        AppendDistinct(entries, e);
      }
    }
  }

  lemma HeaderHasId(h: Header)
    requires IsHeader(h)
    ensures IsId(h.id)
  {
  }

  /** Ids given automatically never repeat among the entries of a history. */
  lemma {:induction false} HistoryIdsDistinct(ops: seq<Op>)
    requires forall op :: op in ops && op.Add? ==> op.id == None
    ensures DistinctIds(History(ops))
  {
    hide Step, DistinctIds;
    if ops == [] {
      NoIds();
    } else {
      var init, op := ops[..|ops| - 1], ops[|ops| - 1];
      assert op in ops && forall x :: x in init ==> x in ops;
      HistoryIdsDistinct(init);
      StepKeepsDistinct(History(init), op);
    }
  }

  lemma NoIds()
    ensures DistinctIds([])
  {
  }
}
