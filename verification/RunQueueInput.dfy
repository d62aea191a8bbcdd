/** Any fields and notes at all: which headers a command leaves in the file, and what makes check-ack succeed. */
module RunQueueInput {
  import opened Text
  import opened QueueFormat
  import opened RunQueue
  import opened RunQueueLaws
  import opened RunQueueFile

  /** Every command leaves the file empty or ended by a line feed. */
  predicate Closed(text: string) {
    text == "" || text[|text| - 1] == '\n'
  }

  /** The headers that are recognised, in order. */
  function HeadersOf(lines: seq<string>): seq<Header> {
    if lines == [] then [] else HeadersIn(lines[0]) + HeadersOf(lines[1..])
  }

  function HeadersIn(line: string): seq<Header> {
    match ParseHeader(line) case None => [] case Some(h) => [h]
  }

  predicate AckHeader(h: Header, pr: string) {
    h.kind == ACK_NEEDED && h.pr == pr && h.status == RESOLVED && ContainsText(h.rest, VERDICT_APPROVED)
  }

  predicate HasAck(headers: seq<Header>, pr: string) {
    exists h | h in headers :: AckHeader(h, pr)
  }

  lemma {:induction false} HeadersConcat(a: seq<string>, b: seq<string>)
    ensures HeadersOf(a + b) == HeadersOf(a) + HeadersOf(b)
  {
    hide HeadersIn;
    if a == [] {
      assert a + b == b;
    } else {
      assert (a + b)[0] == a[0] && (a + b)[1..] == a[1..] + b;
      HeadersConcat(a[1..], b);
    }
  }

  lemma {:induction false} HeaderIsOnALine(lines: seq<string>, h: Header)
    requires h in HeadersOf(lines)
    ensures exists l :: l in lines && ParseHeader(l) == Some(h)
  {
    hide ParseHeader;
    if h !in HeadersIn(lines[0]) {
      HeaderIsOnALine(lines[1..], h);
    }
  }

  lemma {:induction false} AckedByHeaders(lines: seq<string>, pr: string)
    ensures AckedLines(lines, pr) <==> HasAck(HeadersOf(lines), pr)
  {
    hide ParseHeader, ContainsText;
    if lines != [] {
      AckedByHeaders(lines[1..], pr);
      assert lines == [lines[0]] + lines[1..];
      AckedByOne(lines[0], pr);
      hide HeadersIn, AckHeader, AckLine;
      HasAckConcat(HeadersIn(lines[0]), HeadersOf(lines[1..]), pr);
    }
  }

  lemma AckedByOne(line: string, pr: string)
    ensures AckLine(line, pr) <==> HasAck(HeadersIn(line), pr)
  {
    hide ParseHeader, ContainsText;
    match ParseHeader(line)
    case None =>
    case Some(h) => assert h in HeadersIn(line);
  }

  lemma HasAckConcat(a: seq<Header>, b: seq<Header>, pr: string)
    ensures HasAck(a + b, pr) <==> HasAck(a, pr) || HasAck(b, pr)
  {
    hide AckHeader;
  }

  // ---------------------------------------------------------------- texts with line feeds of their own

  /** The lines once every line is cut at the line feeds it holds. */
  function Resplit(lines: seq<string>): seq<string> {
    if lines == [] then [] else Split(lines[0]) + Resplit(lines[1..])
  }

  /** The lines of each text after its first. */
  function LaterLines(texts: seq<string>): seq<string> {
    if texts == [] then [] else Split(texts[0])[1..] + LaterLines(texts[1..])
  }

  lemma {:induction false} SplitOfJoin(lines: seq<string>)
    requires lines != []
    ensures Split(Join(lines)) == Resplit(lines)
  {
    if |lines| == 1 {
      assert lines[1..] == [];
    } else {
      SplitOfJoin(lines[1..]);
      SplitConcat(lines[0], Join(lines[1..]));
    }
  }

  lemma {:induction false} ResplitConcat(a: seq<string>, b: seq<string>)
    ensures Resplit(a + b) == Resplit(a) + Resplit(b)
  {
    hide Split;
    if a == [] {
      assert a + b == b;
    } else {
      assert (a + b)[0] == a[0] && (a + b)[1..] == a[1..] + b;
      ResplitConcat(a[1..], b);
    }
  }

  lemma {:induction false} ResplitClean(lines: seq<string>)
    requires LineClean(lines)
    ensures Resplit(lines) == lines
  {
    hide Split;
    if lines != [] {
      assert lines[0] in lines && forall l :: l in lines[1..] ==> l in lines;
      SplitOne(lines[0]);
      ResplitClean(lines[1..]);
    }
  }

  lemma {:induction false} LaterConcat(a: seq<string>, b: seq<string>)
    ensures LaterLines(a + b) == LaterLines(a) + LaterLines(b)
  {
    hide Split;
    if a == [] {
      assert a + b == b;
    } else {
      assert (a + b)[0] == a[0] && (a + b)[1..] == a[1..] + b;
      LaterConcat(a[1..], b);
    }
  }

  /** What stands before a text joins its first line. */
  lemma SplitWithHead(head: string, t: string)
    requires NoNewline(head)
    ensures Split(head + t) == [head + Split(t)[0]] + Split(t)[1..]
  {
    var k := FirstNewline(t);
    if k == |t| {
      assert t[..k] == t;
      SplitOne(t);
      SplitOne(head + t);
    } else {
      var a, b := t[..k], t[k + 1..];
      hide Split, FirstNewline;
      assert t == a + NL + b;
      SplitStep(a, b);
      Assoc(head, a, NL);
      Assoc(head, a + NL, b);
      SplitStep(head + a, b);
    }
  }

  lemma ClosedAppend(text: string, more: string)
    requires Closed(text)
    ensures Closed(text + more + NL) && SplitLines(text + more + NL) == SplitLines(text) + Split(more)
  {
    var s := text + more + NL;
    assert s[..|s| - 1] == text + more;
    if text == "" {
      assert text + more == more;
    } else {
      var t := text[..|text| - 1];
      assert text == t + NL;
      SplitConcat(t, more);
    }
  }

  /** No line of a remark but those after its first can be a header. */
  lemma {:induction false} BulletHeaders(texts: seq<string>)
    ensures HeadersOf(Resplit(Bullets(texts))) == HeadersOf(LaterLines(texts))
  {
    if texts != [] {
      var bullet, later := "- " + texts[0], Split(texts[0])[1..];
      assert Bullets(texts)[0] == bullet && Bullets(texts)[1..] == Bullets(texts[1..]);
      BulletHeaders(texts[1..]);
      BulletHeadersOne("- ", texts[0]);
      hide HeadersOf, Split;
      HeadersConcat(Split(bullet), Resplit(Bullets(texts[1..])));
      HeadersConcat(later, LaterLines(texts[1..]));
    }
  }

  lemma BulletHeadersOne(head: string, t: string)
    requires NoNewline(head) && head != "" && head[0] == '-'
    ensures HeadersOf(Split(head + t)) == HeadersOf(Split(t)[1..])
  {
    SplitWithHead(head, t);
    var first := head + Split(t)[0];
    assert Split(t)[0] in Split(t);
    BulletPlain(head, Split(t)[0]);
    NotAHeader(first);
    hide Split, ParseHeader;
    assert (Split(head + t))[0] == first && Split(head + t)[1..] == Split(t)[1..];
  }

  // ---------------------------------------------------------------- add

  /** The notes, and the remark on how to resolve the entry. */
  function Remarks(op: Op, id: string): seq<string>
    requires op.Add?
  {
    Notes(op) + if Help(op, id) == [] then [] else ["Resolve: `/autonomy:ack " + id + " approved|rejected`"]
  }

  lemma {:induction false} BulletsConcat(a: seq<string>, b: seq<string>)
    ensures Bullets(a + b) == Bullets(a) + Bullets(b)
  {
    if a == [] {
      assert a + b == b;
    } else {
      assert (a + b)[0] == a[0] && (a + b)[1..] == a[1..] + b;
      BulletsConcat(a[1..], b);
    }
  }

  lemma HelpIsABullet(op: Op, id: string)
    requires op.Add?
    ensures Bullets(Remarks(op, id)) == Bullets(Notes(op)) + Help(op, id)
  {
    var r := "Resolve: `/autonomy:ack " + id + " approved|rejected`";
    assert "- " + r == "- Resolve: `/autonomy:ack " + id + " approved|rejected`";
    assert [r][1..] == [] && Bullets([r]) == ["- " + r];
    BulletsConcat(Notes(op), if Help(op, id) == [] then [] else [r]);
  }

  /** The headers a command writes: the entry's own line, whatever it reads as, and any line hidden in a remark. */
  function Written(text: string, op: Op): seq<Header> {
    var lines := SplitLines(text);
    match op
    case Add(_, _, _, _, _, _, _) =>
      var id := ChosenId(lines, op);
      HeadersOf(Split(HeaderLine(NewHeader(op, id)))) + HeadersOf(LaterLines(Remarks(op, id)))
    case Resolve(_, _, _, _) =>
      if !Resolvable(lines, op.target) then []
      else HeadersOf(Split(ResolvedLine(lines[FindEntry(lines, op.target)], op))) + HeadersOf(LaterLines([op.note]))
  }

  lemma BlockHeaders(op: Op, id: string)
    requires op.Add?
    ensures HeadersOf(Resplit(Block(op, id)))
            == HeadersOf(Split(HeaderLine(NewHeader(op, id)))) + HeadersOf(LaterLines(Remarks(op, id)))
  {
    var line, remarks := HeaderLine(NewHeader(op, id)), Remarks(op, id);
    HelpIsABullet(op, id);
    BulletHeaders(remarks);
    hide HeadersOf, HeaderLine, Split, Bullets, Help, Remarks, LaterLines;
    Assoc([line], Bullets(Notes(op)), Help(op, id));
    var block := [line] + Bullets(remarks);
    assert Block(op, id) == block && block[0] == line && block[1..] == Bullets(remarks);
    HeadersConcat(Split(line), Resplit(Bullets(remarks)));
  }

  /** The lines an add leaves, whatever its texts are. */
  lemma LinesAfterAdd(text: string, op: Op)
    requires op.Add? && Closed(text)
    ensures Closed(AddText(text, op))
    ensures SplitLines(AddText(text, op)) == (if text == "" then HEADER_LINES else SplitLines(text))
                                             + ([""] + Resplit(Block(op, ChosenId(SplitLines(text), op))))
  {
    var lines := SplitLines(text);
    var block := Block(op, ChosenId(lines, op));
    EmptyHasNoLines(text);
    LinesOfHead();
    BlockNotEmpty(op, ChosenId(lines, op));
    SplitOfJoin(block);
    BlankSplit(Join(block));
    hide Block, Split, SplitLines, Join, ChosenId, Resplit;
    var start := text + if lines == [] then FileText(HEADER_LINES) else "";
    assert start == if text == "" then FileText(HEADER_LINES) else text;
    ClosedAppend(start, NL + Join(block));
    Assoc(start, NL, Join(block));
  }

  lemma EmptyHasNoLines(text: string)
    ensures SplitLines(text) == [] <==> text == ""
  {
  }

  lemma LinesOfHead()
    ensures Closed(FileText(HEADER_LINES)) && SplitLines(FileText(HEADER_LINES)) == HEADER_LINES
  {
    HeadClean();
    LinesOfText(HEADER_LINES);
  }

  lemma BlankSplit(s: string)
    ensures Split(NL + s) == [""] + Split(s)
  {
    SplitStep("", s);
    assert "" + NL + s == NL + s;
  }

  lemma HeadHasNoHeaders()
    ensures HeadersOf(HEADER_LINES) == [] && HeadersOf([""]) == []
  {
    assert HEADER_LINES[0][1] == ' ' && HEADER_LINES[1] == "" && HEADER_LINES[2][0] == '>';
    NotMarked(HEADER_LINES[0]);
    NotMarked("");
    NotMarked(HEADER_LINES[2]);
    hide StartsWith;
    NoHeaderLine(HEADER_LINES[0]);
    NoHeaderLine("");
    NoHeaderLine(HEADER_LINES[2]);
    HeadersConcat([HEADER_LINES[0]], [""]);
    HeadersConcat([HEADER_LINES[0]] + [""], [HEADER_LINES[2]]);
    assert HEADER_LINES == [HEADER_LINES[0]] + [""] + [HEADER_LINES[2]];
  }

  lemma NoHeaderLine(line: string)
    requires !StartsWith(line, "### ")
    ensures HeadersOf([line]) == []
  {
    NotAHeader(line);
    assert [line][1..] == [];
  }

  lemma WrittenByAdd(text: string, op: Op)
    requires op.Add?
    ensures HeadersOf(Resplit(Block(op, ChosenId(SplitLines(text), op)))) == Written(text, op)
  {
    BlockHeaders(op, ChosenId(SplitLines(text), op));
  }

  lemma HeadersOfStart(text: string)
    ensures HeadersOf(if text == "" then HEADER_LINES else SplitLines(text)) == HeadersOf(SplitLines(text))
    ensures HeadersOf([""]) == []
  {
    HeadHasNoHeaders();
    EmptyHasNoLines(text);
  }

  lemma HeadersAfterAdd(text: string, op: Op)
    requires op.Add? && Closed(text)
    ensures HeadersOf(SplitLines(AddText(text, op))) == HeadersOf(SplitLines(text)) + Written(text, op)
  {
    LinesAfterAdd(text, op);
    WrittenByAdd(text, op);
    HeadersOfStart(text);
    hide HeadersOf, AddText, SplitLines, Block, Resplit, ChosenId, Written;
    var start := if text == "" then HEADER_LINES else SplitLines(text);
    var added := Resplit(Block(op, ChosenId(SplitLines(text), op)));
    HeadersConcat(start, [""] + added);
    HeadersConcat([""], added);
    assert [] + Written(text, op) == Written(text, op);
  }

  // ---------------------------------------------------------------- when an add says what it was given

  /** The fields leave one line that reads as they do. */
  ghost predicate FieldsFit(h: Header) {
    IsHeader(h) && NoNewline(h.pr) && NoNewline(h.phase) && NoNewline(h.ts)
  }

  /** An add appends exactly its own entry when its fields fit and no note hides a header line, and only then. */
  lemma AddAppendsItsEntryIff(text: string, op: Op)
    requires op.Add? && Closed(text)
    ensures var h := NewHeader(op, ChosenId(SplitLines(text), op));
            HeadersOf(SplitLines(AddText(text, op))) == HeadersOf(SplitLines(text)) + [h]
            <==> FieldsFit(h) && HeadersOf(LaterLines(Notes(op))) == []
  {
    var id := ChosenId(SplitLines(text), op);
    var h := NewHeader(op, id);
    HeadersAfterAdd(text, op);
    SameTail(HeadersOf(SplitLines(text)), Written(text, op), [h]);
    hide HeadersOf, AddText, SplitLines, ChosenId, FieldsFit, IsHeader, HeaderLine, LaterLines, Split;
    if FieldsFit(h) {
      FittingHeader(h);
      RemarksOf(op, id);
    } else if Written(text, op) == [h] {
      assert h in Written(text, op);
      WrittenFits(op, id, h);
    }
  }

  lemma SameTail<T>(a: seq<T>, b: seq<T>, c: seq<T>)
    ensures a + b == a + c <==> b == c
  {
    assert (a + b)[|a|..] == b && (a + c)[|a|..] == c;
  }

  lemma FittingHeader(h: Header)
    requires FieldsFit(h) && h.rest == ""
    ensures HeadersOf(Split(HeaderLine(h))) == [h] && NoNewline(h.id)
  {
    IdClean(h.id);
    HeaderLineClean(h);
    PrintedHeaderParses(h);
    hide HeaderLine, ParseHeader, Split;
    SplitOne(HeaderLine(h));
    assert [HeaderLine(h)][1..] == [];
  }

  lemma RemarkClean(id: string)
    requires NoNewline(id)
    ensures NoNewline("Resolve: `/autonomy:ack " + id + " approved|rejected`")
  {
  }

  lemma RemarksOf(op: Op, id: string)
    requires op.Add? && NoNewline(id)
    ensures HeadersOf(LaterLines(Remarks(op, id))) == HeadersOf(LaterLines(Notes(op)))
  {
    RemarkClean(id);
    var r := "Resolve: `/autonomy:ack " + id + " approved|rejected`";
    var remark := if Help(op, id) == [] then [] else [r];
    assert Remarks(op, id) == Notes(op) + remark;
    LaterOne(r);
    SplitOne(r);
    assert LaterLines([]) == [] && LaterLines(remark) == [];
    hide HeadersOf, Split, LaterLines, Remarks, Help;
    LaterConcat(Notes(op), remark);
    assert LaterLines(Notes(op)) + [] == LaterLines(Notes(op));
  }

  lemma WrittenFits(op: Op, id: string, h: Header)
    requires op.Add? && h == NewHeader(op, id)
    requires h in HeadersOf(Split(HeaderLine(h))) + HeadersOf(LaterLines(Remarks(op, id)))
    ensures FieldsFit(h)
  {
    hide Split, HeaderLine, HeadersOf, IsHeader;
    LaterClean(Remarks(op, id));
    var lines := if h in HeadersOf(Split(HeaderLine(h))) then Split(HeaderLine(h)) else LaterLines(Remarks(op, id));
    HeaderIsOnALine(lines, h);
    var l :| l in lines && ParseHeader(l) == Some(h);
    HeaderMatchesIff(l, h);
    FieldsOnTheLine(h);
  }

  lemma {:induction false} LaterClean(texts: seq<string>)
    ensures LineClean(LaterLines(texts))
  {
    if texts != [] {
      LaterClean(texts[1..]);
    }
  }

  lemma FieldsOnTheLine(h: Header)
    requires NoNewline(HeaderLine(h))
    ensures NoNewline(h.pr) && NoNewline(h.phase) && NoNewline(h.ts)
  {
    HeaderLineText(h);
    hide HeaderLine;
    var a := "### " + h.id + " | " + h.kind + " | pr:";
    var b := a + h.pr + " | phase:";
    var c := b + h.phase + " | ";
    var d := c + h.ts + " | status:" + h.status + h.rest;
    assert HeaderLine(h) == d;
  }

  // ---------------------------------------------------------------- resolve

  lemma WrittenByResolve(text: string, op: Op)
    requires op.Resolve? && Resolvable(SplitLines(text), op.target)
    ensures var lines := SplitLines(text);
            HeadersOf(Split(ResolvedLine(lines[FindEntry(lines, op.target)], op)) + Resplit(NoteLines(op)))
            == Written(text, op)
  {
    hide HeadersOf, SplitLines, Split, FindEntry, ResolvedLine, NoteLines, LaterLines;
    var lines := SplitLines(text);
    NoteHeaders(op);
    HeadersConcat(Split(ResolvedLine(lines[FindEntry(lines, op.target)], op)), Resplit(NoteLines(op)));
  }

  /** Line k gives way to the lines of a part. */
  predicate Spliced(lines: seq<string>, k: nat, part: seq<string>, all: seq<string>)
    requires k < |lines|
  {
    all == lines[..k] + part + lines[k + 1..]
  }

  /** The headers of the file with line k giving way to others. */
  function Around(lines: seq<string>, k: nat, headers: seq<Header>): seq<Header>
    requires k < |lines|
  {
    HeadersOf(lines[..k]) + headers + HeadersOf(lines[k + 1..])
  }

  lemma HeadersAfterResolve(text: string, op: Op)
    requires op.Resolve? && Resolvable(SplitLines(text), op.target)
    ensures var lines := SplitLines(text);
            && Closed(ResolveText(text, op))
            && HeadersOf(SplitLines(ResolveText(text, op)))
               == Around(lines, FindEntry(lines, op.target), Written(text, op))
  {
    var lines := SplitLines(text);
    var k := FindEntry(lines, op.target);
    var written := Split(ResolvedLine(lines[k], op)) + Resplit(NoteLines(op));
    hide HeadersOf, SplitLines, Split, FindEntry, ResolvedLine, NoteLines, ResolveText, Resplit, Written, Resolvable,
         Closed;
    hide Around, Spliced;
    ResolvableWithin(lines, op.target);
    LinesAfterResolve(text, op);
    WrittenByResolve(text, op);
    HeadersSpliced(lines, k, written, SplitLines(ResolveText(text, op)));
  }

  lemma ResolvableWithin(lines: seq<string>, target: string)
    requires Resolvable(lines, target)
    ensures FindEntry(lines, target) < |lines|
  {
  }

  lemma HeadersSpliced(lines: seq<string>, k: nat, part: seq<string>, all: seq<string>)
    requires k < |lines| && Spliced(lines, k, part, all)
    ensures HeadersOf(all) == Around(lines, k, HeadersOf(part))
  {
    hide HeadersOf;
    HeadersConcat(lines[..k] + part, lines[k + 1..]);
    HeadersConcat(lines[..k], part);
  }

  lemma LaterOne(t: string)
    ensures LaterLines([t]) == Split(t)[1..]
  {
    hide Split;
    assert [t][1..] == [] && LaterLines([]) == [];
  }

  lemma ResplitOne(line: string)
    ensures Resplit([line]) == Split(line)
  {
    hide Split;
    assert [line][1..] == [] && Resplit([]) == [];
  }

  lemma NoteHeaders(op: Op)
    requires op.Resolve?
    ensures HeadersOf(Resplit(NoteLines(op))) == HeadersOf(LaterLines([op.note]))
  {
    hide HeadersOf;
    LaterOne(op.note);
    if op.note == "" {
      SplitOne("");
      EmptySplit();
    } else {
      hide Split;
      ResplitOne("- Resolution note: " + op.note);
      BulletHeadersOne("- Resolution note: ", op.note);
    }
  }

  lemma ResplitAround(before: seq<string>, line: string, notes: seq<string>, after: seq<string>)
    requires LineClean(before) && LineClean(after)
    ensures Resplit(before + [line] + notes + after) == before + (Split(line) + Resplit(notes)) + after
  {
    hide Split, Resplit;
    ResplitConcat(before + [line] + notes, after);
    ResplitConcat(before + [line], notes);
    ResplitConcat(before, [line]);
    ResplitClean(before);
    ResplitOne(line);
    ResplitClean(after);
    Assoc(before, Split(line), Resplit(notes));
  }

  lemma RewrittenText(text: string, op: Op)
    requires op.Resolve? && Resolvable(SplitLines(text), op.target)
    ensures var lines := SplitLines(text);
            var k := FindEntry(lines, op.target);
            ResolveText(text, op)
            == Join(lines[..k] + [ResolvedLine(lines[k], op)] + NoteLines(op) + lines[k + 1..]) + NL
  {
    hide SplitLines, ResolvedLine, FindEntry, NoteLines, Join, PendingEntry;
  }

  lemma LinesAfterResolve(text: string, op: Op)
    requires op.Resolve? && Resolvable(SplitLines(text), op.target)
    ensures var lines := SplitLines(text);
            var k := FindEntry(lines, op.target);
            && Closed(ResolveText(text, op))
            && Spliced(lines, k, Split(ResolvedLine(lines[k], op)) + Resplit(NoteLines(op)),
                       SplitLines(ResolveText(text, op)))
  {
    hide SplitLines, Split, ResolvedLine, NoteLines, Join, Resplit, ResolveText, Closed, Spliced, PendingEntry;
    var lines := SplitLines(text);
    var k := FindEntry(lines, op.target);
    RewrittenText(text, op);
    RejoinedLines(lines, k, ResolvedLine(lines[k], op), NoteLines(op), ResolveText(text, op));
  }

  lemma RejoinedLines(lines: seq<string>, k: nat, line: string, notes: seq<string>, text: string)
    requires k < |lines| && LineClean(lines) && text == Join(lines[..k] + [line] + notes + lines[k + 1..]) + NL
    ensures Closed(text) && Spliced(lines, k, Split(line) + Resplit(notes), SplitLines(text))
  {
    hide SplitLines, Split, Join, Resplit, Closed;
    PartsClean(lines, k);
    SplicedLines(lines[..k], line, notes, lines[k + 1..]);
  }

  lemma SplicedLines(before: seq<string>, line: string, notes: seq<string>, after: seq<string>)
    requires LineClean(before) && LineClean(after)
    ensures var s := Join(before + [line] + notes + after) + NL;
            Closed(s) && SplitLines(s) == before + (Split(line) + Resplit(notes)) + after
  {
    hide SplitLines, Split, Join, Resplit, LineClean;
    SplitOfJoin(before + [line] + notes + after);
    ResplitAround(before, line, notes, after);
    EndedText(Join(before + [line] + notes + after));
  }

  lemma EndedText(s: string)
    ensures Closed(s + NL) && SplitLines(s + NL) == Split(s)
  {
    assert (s + NL)[..|s|] == s;
  }

  lemma EmptySplit()
    ensures SplitLines("") == [] && Resplit([]) == []
  {
  }

  lemma PartsClean(lines: seq<string>, k: nat)
    requires k < |lines| && LineClean(lines)
    ensures LineClean(lines[..k]) && LineClean(lines[k + 1..])
  {
  }

  // ---------------------------------------------------------------- what makes check-ack succeed

  /** One command, any file: check-ack succeeds afterwards exactly when it did before or the command wrote an
      approved ack line. */
  lemma AckedStepIff(text: string, op: Op, pr: string)
    requires Closed(text)
    ensures Closed(StepText(text, op))
    ensures AckedLines(SplitLines(StepText(text, op)), pr)
            <==> AckedLines(SplitLines(text), pr) || HasAck(Written(text, op), pr)
  {
    var lines := SplitLines(text);
    hide HeadersOf, SplitLines, AckedLines, HasAck, Split, Around;
    AckedByHeaders(lines, pr);
    AckedByHeaders(SplitLines(StepText(text, op)), pr);
    if op.Add? {
      LinesAfterAdd(text, op);
      HeadersAfterAdd(text, op);
      HasAckConcat(HeadersOf(lines), Written(text, op), pr);
    } else if Resolvable(lines, op.target) {
      HeadersAfterResolve(text, op);
      ResolveKeepsAcks(text, op, pr);
    } else {
      NothingWritten(text, op, pr);
    }
  }

  lemma NothingWritten(text: string, op: Op, pr: string)
    requires op.Resolve? && !Resolvable(SplitLines(text), op.target)
    ensures !HasAck(Written(text, op), pr)
  {
  }

  lemma HeadersAround(lines: seq<string>, k: nat)
    requires k < |lines|
    ensures HeadersOf(lines) == Around(lines, k, HeadersIn(lines[k]))
  {
    hide HeadersOf, HeadersIn, Around;
    HeadersSpliced(lines, k, [lines[k]], lines);
    HeadersOfOne(lines[k]);
  }

  lemma AcksAround(lines: seq<string>, k: nat, here: seq<Header>, there: seq<Header>, pr: string)
    requires k < |lines| && !HasAck(here, pr)
    ensures HasAck(Around(lines, k, there), pr) <==> HasAck(Around(lines, k, here), pr) || HasAck(there, pr)
  {
    hide HasAck, HeadersOf;
    var before, after := HeadersOf(lines[..k]), HeadersOf(lines[k + 1..]);
    HasAckConcat(before + there, after, pr);
    HasAckConcat(before, there, pr);
    HasAckConcat(before + here, after, pr);
    HasAckConcat(before, here, pr);
  }

  /** The line a resolve rewrites is pending, so no approved ack is lost with it. */
  lemma ResolveKeepsAcks(text: string, op: Op, pr: string)
    requires op.Resolve? && Resolvable(SplitLines(text), op.target)
    ensures var lines := SplitLines(text);
            HasAck(Around(lines, FindEntry(lines, op.target), Written(text, op)), pr)
            <==> HasAck(HeadersOf(lines), pr) || HasAck(Written(text, op), pr)
  {
    var lines := SplitLines(text);
    var k := FindEntry(lines, op.target);
    hide SplitLines, HeadersOf, FindEntry, PendingEntry, Written, HasAck, HeadersIn, Around;
    PendingIsNoAck(lines[k], pr);
    HeadersAround(lines, k);
    AcksAround(lines, k, HeadersIn(lines[k]), Written(text, op), pr);
  }

  lemma HeadersOfOne(line: string)
    ensures HeadersOf([line]) == HeadersIn(line)
  {
    assert [line][1..] == [];
  }

  lemma PendingIsNoAck(line: string, pr: string)
    requires PendingEntry(line)
    ensures !HasAck(HeadersIn(line), pr)
  {
    hide ParseHeader, ContainsText;
    assert PENDING[0] == 'p' && RESOLVED[0] == 'r';
  }

  lemma NothingAcked(pr: string)
    ensures Closed("") && !AckedLines(SplitLines(""), pr)
  {
    EmptySplit();
  }

  /** Some command of the run wrote an approved ack line of the pull request. */
  predicate AckWritten(ops: seq<Op>, pr: string) {
    exists i | 0 <= i < |ops| :: HasAck(Written(TextAfter(ops[..i]), ops[i]), pr)
  }

  lemma AckWrittenSnoc(ops: seq<Op>, pr: string)
    requires ops != []
    ensures var n := |ops| - 1;
            AckWritten(ops, pr) <==> AckWritten(ops[..n], pr) || HasAck(Written(TextAfter(ops[..n]), ops[n]), pr)
  {
    hide HasAck, Written, TextAfter;
    var n := |ops| - 1;
    var init := ops[..n];
    forall i | 0 <= i < n ensures ops[..i] == init[..i] && ops[i] == init[i] {
    }
    if i :| 0 <= i < n && HasAck(Written(TextAfter(init[..i]), init[i]), pr) {
      assert HasAck(Written(TextAfter(ops[..i]), ops[i]), pr);
    }
    if i :| 0 <= i < n && HasAck(Written(TextAfter(ops[..i]), ops[i]), pr) {
      assert HasAck(Written(TextAfter(init[..i]), init[i]), pr);
    }
  }

  /** Any run of commands, whatever their texts: check-ack succeeds at the end exactly when one of them wrote an
      approved ack line for the pull request. No later command takes that back. */
  lemma {:induction false} AckedRunIff(ops: seq<Op>, pr: string)
    ensures Closed(TextAfter(ops))
    ensures AckedLines(SplitLines(TextAfter(ops)), pr) <==> AckWritten(ops, pr)
  {
    hide HasAck, Written, SplitLines, StepText, AckedLines, Closed;
    if ops == [] {
      NothingAcked(pr);
    } else {
      var n := |ops| - 1;
      assert TextAfter(ops) == StepText(TextAfter(ops[..n]), ops[n]);
      AckWrittenSnoc(ops, pr);
      hide TextAfter, AckWritten;
      AckedRunIff(ops[..n], pr);
      AckedStepIff(TextAfter(ops[..n]), ops[n], pr);
    }
  }

  /** An add whose fields fit and whose notes hide no header line approves nothing. */
  lemma FittingAddAcksNothing(text: string, op: Op, pr: string)
    requires op.Add? && FieldsFit(NewHeader(op, ChosenId(SplitLines(text), op)))
             && HeadersOf(LaterLines(Notes(op))) == []
    ensures !HasAck(Written(text, op), pr)
  {
    var id := ChosenId(SplitLines(text), op);
    FittingHeader(NewHeader(op, id));
    RemarksOf(op, id);
    hide HeadersOf, SplitLines, ChosenId, FieldsFit, HeaderLine, LaterLines, Split, ContainsText;
    assert Written(text, op) == [NewHeader(op, id)];
    assert PENDING[0] == 'p' && RESOLVED[0] == 'r';
  }

  /** No field of the header holds the text a resolve rewrites. */
  ghost predicate Rewritable(h: Header) {
    && h.status == PENDING && h.rest == ""
    && !ContainsText(h.pr, STATUS_PENDING) && !ContainsText(h.phase, STATUS_PENDING)
    && !ContainsText(h.ts, STATUS_PENDING)
  }

  lemma ResolvedLineWritten(line: string, op: Op, h: Header)
    requires op.Resolve? && NoNewline(op.at) && NoNewline(line) && ParseHeader(line) == Some(h) && Rewritable(h)
    ensures HeadersOf(Split(ResolvedLine(line, op))) == [ResolvedHeader(h, op)]
  {
    var h' := ResolvedHeader(h, op);
    hide HeadersOf, Split, ParseHeader, IsHeader, HeaderLine, ResolvedLine, ContainsText;
    HeaderMatchesIff(line, h);
    FieldsOnTheLine(h);
    ResolveRewritesStatusIff(h, op);
    ResolvedHeaderOk(h, op);
    ResolvedHeaderClean(h', op);
    PrintedHeaderParses(h');
    SplitOne(HeaderLine(h'));
    HeadersOfOne(HeaderLine(h'));
  }

  lemma ResolvedHeaderAcksIff(h: Header, op: Op, pr: string)
    requires op.Resolve? && !ContainsText(op.at, VERDICT_APPROVED)
    ensures HasAck([ResolvedHeader(h, op)], pr) <==> op.verdict == Approved && h.kind == "ack-needed" && h.pr == pr
  {
    ResolutionSaysVerdict(op);
    hide ContainsText, Resolution;
    var h' := ResolvedHeader(h, op);
    assert h' in [h'];
  }

  /** A resolve whose time stamp and note hold nothing of the format, of an entry that can be rewritten, approves
      the entry's pull request exactly when its verdict does. */
  lemma FittingResolveAcksIff(text: string, op: Op, pr: string, h: Header)
    requires op.Resolve? && Resolvable(SplitLines(text), op.target)
    requires ParseHeader(SplitLines(text)[FindEntry(SplitLines(text), op.target)]) == Some(h) && Rewritable(h)
    requires NoNewline(op.at) && !ContainsText(op.at, VERDICT_APPROVED) && HeadersOf(LaterLines([op.note])) == []
    ensures HasAck(Written(text, op), pr) <==> op.verdict == Approved && h.kind == "ack-needed" && h.pr == pr
  {
    hide SplitLines, FindEntry, HeadersOf, Split, ParseHeader, ResolvedLine, LaterLines, ContainsText, Rewritable,
         HasAck;
    var lines := SplitLines(text);
    var line := lines[FindEntry(lines, op.target)];
    assert line in lines;
    assert Written(text, op) == HeadersOf(Split(ResolvedLine(line, op))) + [];
    ResolvedLineWritten(line, op, h);
    assert Written(text, op) == [ResolvedHeader(h, op)];
    ResolvedHeaderAcksIff(h, op, pr);
  }

  // ---------------------------------------------------------------- forged acks

  /** A header that reads as an approved ack of the pull request. */
  function ForgedHeader(pr: string, rest: string): Header {
    Header("RQ-20260702-001", ACK_NEEDED, pr, "1", "t", RESOLVED, " | verdict:approved" + rest)
  }

  /** An announcement of completion whose summary goes on with such a header on a line of its own. */
  function ForgingNote(pr: string): Op {
    Add("complete", "-", "1", "t", None, "done" + NL + HeaderLine(ForgedHeader(pr, "")), [])
  }

  /** A pending ack request whose phase holds spaces and supplies the rest of such a header. */
  function ForgingPhase(pr: string): Op {
    Add(ACK_NEEDED, pr, "1 | t | status:resolved | verdict:approved", "t", Some("RQ-20260702-001"), "ready", [])
  }

  lemma SampleId()
    ensures IsId("RQ-20260702-001")
  {
    var id := "RQ-20260702-001";
    assert id[..3] == "RQ-" && id[3..11] == "20260702" && id[12..] == "001";
  }

  lemma ForgedRestApproves(rest: string)
    ensures ContainsText(" | verdict:approved" + rest, VERDICT_APPROVED)
  {
    var r := " | verdict:approved" + rest;
    assert r[3..19] == VERDICT_APPROVED;
    assert OccursAt(r, VERDICT_APPROVED, 3);
  }

  lemma ForgedHeaderFits(pr: string, rest: string)
    requires IsField(pr)
    ensures IsHeader(ForgedHeader(pr, rest)) && AckHeader(ForgedHeader(pr, rest), pr)
  {
    SampleId();
    ForgedRestApproves(rest);
    hide IsId, ContainsText;
    assert IsKind(ACK_NEEDED) && IsWord(RESOLVED) && IsField("1") && IsField("t");
  }

  lemma AckAmong(line: string, h: Header, more: seq<Header>, pr: string)
    requires ParseHeader(line) == Some(h) && AckHeader(h, pr)
    ensures HasAck(HeadersIn(line) + more, pr) && HasAck(more + HeadersIn(line), pr)
  {
    hide ParseHeader, AckHeader;
    assert h in HeadersIn(line);
    assert h in HeadersIn(line) + more && h in more + HeadersIn(line);
  }

  /** One summary makes check-ack succeed on any file, though nobody approved anything. */
  lemma NoteForgesAck(text: string, pr: string)
    requires Closed(text) && IsField(pr) && NoNewline(pr)
    ensures AckedLines(SplitLines(StepText(text, ForgingNote(pr))), pr)
    ensures !Acked(History([ForgingNote(pr)]), pr)
  {
    hide SplitLines, Split, HeadersOf, ParseHeader, HeaderLine, AckHeader, IsHeader;
    var op, h := ForgingNote(pr), ForgedHeader(pr, "");
    var id, line := ChosenId(SplitLines(text), op), HeaderLine(h);
    ForgedHeaderFits(pr, "");
    PrintedHeaderParses(h);
    ForgedLineClean(pr, "");
    AckedStepIff(text, op, pr);
    NoteLater(line);
    HeadersOfOne(line);
    AckAmong(line, h, HeadersOf(Split(HeaderLine(NewHeader(op, id)))), pr);
    assert Remarks(op, id) == Notes(op) == ["Summary: " + ("done" + NL + line)];
    UnresolvedNotAcked(op, pr);
  }

  lemma ForgedTextsClean(rest: string)
    requires NoNewline(rest)
    ensures NoNewline("RQ-20260702-001") && NoNewline(" | verdict:approved" + rest) && NoNewline("1") && NoNewline("t")
    ensures IsKind(ACK_NEEDED) && IsWord(RESOLVED)
  {
  }

  lemma ForgedLineClean(pr: string, rest: string)
    requires IsField(pr) && NoNewline(pr) && NoNewline(rest)
    ensures NoNewline(HeaderLine(ForgedHeader(pr, rest)))
  {
    ForgedTextsClean(rest);
    hide HeaderLine, IsKind, IsWord, NoNewline;
    HeaderLineClean(ForgedHeader(pr, rest));
  }

  lemma NoteLater(line: string)
    requires NoNewline(line)
    ensures LaterLines(["Summary: " + ("done" + NL + line)]) == [line]
  {
    var t := "Summary: done";
    assert "Summary: " + ("done" + NL + line) == t + NL + line;
    LaterOne(t + NL + line);
    SplitStep(t, line);
    SplitOne(line);
    hide Split;
    assert ([t] + [line])[1..] == [line];
  }

  lemma UnresolvedNotAcked(op: Op, pr: string)
    requires op.Add?
    ensures !Acked(History([op]), pr)
  {
    assert [op][..0] == [] && History([op][..0]) == [];
    assert History([op]) == Step([], op);
    hide IsHeader, NextId;
  }

  /** So does one request whose phase holds spaces. */
  lemma PhaseForgesAck(text: string, pr: string)
    requires Closed(text) && IsField(pr) && NoNewline(pr)
    ensures AckedLines(SplitLines(StepText(text, ForgingPhase(pr))), pr)
    ensures !Acked(History([ForgingPhase(pr)]), pr)
  {
    hide SplitLines, Split, HeadersOf, ParseHeader, HeaderLine, AckHeader, IsHeader;
    var op, h := ForgingPhase(pr), ForgedHeader(pr, " | t | status:pending");
    var id, line := ChosenId(SplitLines(text), op), HeaderLine(h);
    ForgedHeaderFits(pr, " | t | status:pending");
    PrintedHeaderParses(h);
    ForgedLineClean(pr, " | t | status:pending");
    SamePrint(pr);
    SplitOne(line);
    HeadersOfOne(line);
    AckAmong(line, h, HeadersOf(LaterLines(Remarks(op, id))), pr);
    AckedStepIff(text, op, pr);
    UnresolvedNotAcked(op, pr);
  }

  lemma TailOfSix(a: string, b: string, c: string, d: string, e: string, f: string, g: string)
    ensures a + b + c + d + e + f + g == a + (b + c + d + e + f + g)
  {
    Assoc(a, b, c);
    Assoc(a, b + c, d);
    Assoc(a, b + c + d, e);
    Assoc(a, b + c + d + e, f);
    Assoc(a, b + c + d + e + f, g);
  }

  lemma SamePrint(pr: string)
    ensures HeaderLine(NewHeader(ForgingPhase(pr), "RQ-20260702-001"))
            == HeaderLine(ForgedHeader(pr, " | t | status:pending"))
  {
    HeaderLineText(NewHeader(ForgingPhase(pr), "RQ-20260702-001"));
    HeaderLineText(ForgedHeader(pr, " | t | status:pending"));
    hide HeaderLine;
    var a := "### " + "RQ-20260702-001" + " | " + ACK_NEEDED + " | pr:" + pr + " | phase:";
    var phase, rest := "1 | t | status:resolved | verdict:approved", " | verdict:approved" + " | t | status:pending";
    TailOfSix(a, phase, " | ", "t", " | status:", PENDING, "");
    TailOfSix(a, "1", " | ", "t", " | status:", RESOLVED, rest);
    SameTails();
  }

  lemma SameTails()
    ensures "1 | t | status:resolved | verdict:approved" + " | " + "t" + " | status:" + PENDING + ""
            == "1" + " | " + "t" + " | status:" + RESOLVED + (" | verdict:approved" + " | t | status:pending")
  {
    var phase, later := "1 | t | status:resolved | verdict:approved", " | t | status:pending";
    TailOfSix(phase, " | ", "t", " | status:", PENDING, "", "");
    LaterText();
    PhaseText();
    Assoc("1" + " | " + "t" + " | status:" + RESOLVED, " | verdict:approved", later);
  }

  lemma LaterText()
    ensures " | " + "t" + " | status:" + PENDING + "" + "" == " | t | status:pending"
  {
  }

  lemma PhaseText()
    ensures "1" + " | " + "t" + " | status:" + RESOLVED + " | verdict:approved"
            == "1 | t | status:resolved | verdict:approved"
  {
    assert "1" + " | " + "t" + " | status:" + RESOLVED == "1 | t | status:resolved";
  }
}
