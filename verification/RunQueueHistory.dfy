/** Runs of commands that fit the format: the file tells their history. */
module RunQueueHistory {
  import opened Text
  import opened QueueFormat
  import opened RunQueue
  import opened RunQueueLaws
  import opened RunQueueFile
  import opened RunQueueInput

  /** The add's header line is recognised as what it was given, and can be resolved; or it is not recognised at all.
      No note hides a header line. */
  ghost predicate AddFits(op: Op, id: string)
    requires op.Add?
  {
    var h := NewHeader(op, id);
    && HeadersOf(LaterLines(Remarks(op, id))) == []
    && (if IsHeader(h) then FieldsFit(h) && Rewritable(h) else HeadersOf(Split(HeaderLine(h))) == [])
  }

  ghost predicate Fits(text: string, op: Op) {
    match op
    case Add(_, _, _, _, _, _, _) => AddFits(op, ChosenId(SplitLines(text), op))
    case Resolve(_, _, at, note) =>
      NoNewline(at) && !ContainsText(at, VERDICT_APPROVED) && HeadersOf(LaterLines([note])) == []
  }

  ghost predicate FittingRun(ops: seq<Op>) {
    forall i :: 0 <= i < |ops| ==> Fits(TextAfter(ops[..i]), ops[i])
  }

  /** The headers stand for the entries, one by one. */
  ghost predicate Stand(headers: seq<Header>, entries: seq<Entry>) {
    |headers| == |entries| && forall i :: 0 <= i < |headers| ==> StandsFor(headers[i], entries[i])
  }

  // ---------------------------------------------------------------- ids

  function HeaderIds(headers: seq<Header>): (ids: seq<string>)
    ensures |ids| == |headers| && forall i :: 0 <= i < |ids| ==> ids[i] == headers[i].id
  {
    if headers == [] then [] else [headers[0].id] + HeaderIds(headers[1..])
  }

  lemma {:induction false} IdsByHeaders(lines: seq<string>)
    ensures IdsOf(lines) == HeaderIds(HeadersOf(lines))
  {
    hide ParseHeader;
    if lines != [] {
      IdsByHeaders(lines[1..]);
      match ParseHeader(lines[0])
      case None => assert [] + HeadersOf(lines[1..]) == HeadersOf(lines[1..]);
      case Some(h) => assert ([h] + HeadersOf(lines[1..]))[1..] == HeadersOf(lines[1..]);
    }
  }

  lemma StandIds(headers: seq<Header>, entries: seq<Entry>)
    requires Stand(headers, entries)
    ensures HeaderIds(headers) == Ids(entries)
  {
    hide CleanField, ContainsText;
    forall i | 0 <= i < |headers| ensures HeaderIds(headers)[i] == Ids(entries)[i] {
      assert StandsFor(headers[i], entries[i]);
    }
  }

  lemma IdsRecognised(lines: seq<string>)
    ensures forall id :: id in IdsOf(lines) ==> IsId(id)
  {
    hide IsId, HeadersOf, ParseHeader;
    IdsByHeaders(lines);
    forall id | id in IdsOf(lines) ensures IsId(id) {
      var i :| 0 <= i < |IdsOf(lines)| && IdsOf(lines)[i] == id;
      var h := HeadersOf(lines)[i];
      HeaderIsOnALine(lines, h);
      var l :| l in lines && ParseHeader(l) == Some(h);
      HeaderMatchesIff(l, h);
    }
  }

  /** On any file whatever, an automatic id is none of those in it. */
  lemma AutoIdIsNew(lines: seq<string>, date: string)
    ensures NextId(IdsOf(lines), date) !in IdsOf(lines)
  {
    IdsRecognised(lines);
    NextIdFresh(IdsOf(lines), date);
  }

  // ---------------------------------------------------------------- one command

  lemma AddWritten(op: Op, id: string)
    requires op.Add? && AddFits(op, id)
    ensures var h := NewHeader(op, id);
            HeadersOf(Split(HeaderLine(h))) + HeadersOf(LaterLines(Remarks(op, id))) == if IsHeader(h) then [h] else []
  {
    var h := NewHeader(op, id);
    if IsHeader(h) {
      FittingHeader(h);
    }
    hide HeadersOf, HeaderLine, Split, LaterLines, IsHeader, FieldsFit, Rewritable, Remarks;
  }

  lemma NewHeaderStands(op: Op, id: string)
    requires op.Add? && AddFits(op, id) && IsHeader(NewHeader(op, id))
    ensures StandsFor(NewHeader(op, id), Entry(id, op.kind, op.pr, op.phase, op.ts, None))
  {
    hide HeadersOf, HeaderLine, Split, LaterLines, Remarks, ContainsText;
  }

  lemma StandAppended(headers: seq<Header>, entries: seq<Entry>, h: Header, e: Entry)
    requires Stand(headers, entries) && StandsFor(h, e)
    ensures Stand(headers + [h], entries + [e])
  {
    hide StandsFor;
  }

  lemma WrittenByFittingAdd(text: string, op: Op)
    requires op.Add? && Fits(text, op)
    ensures var h := NewHeader(op, ChosenId(SplitLines(text), op));
            Written(text, op) == if IsHeader(h) then [h] else []
  {
    hide AddFits, SplitLines, ChosenId, HeadersOf, HeaderLine, Split, LaterLines, Remarks, IsHeader;
    AddWritten(op, ChosenId(SplitLines(text), op));
  }

  lemma AddStands(text: string, entries: seq<Entry>, op: Op)
    requires op.Add? && Closed(text) && Fits(text, op) && Stand(HeadersOf(SplitLines(text)), entries)
    ensures Stand(HeadersOf(SplitLines(AddText(text, op))), Step(entries, op))
  {
    hide HeadersOf, SplitLines, AddFits, IsHeader, StandsFor, AddText, Stand, Written, Closed, IdFor;
    var lines := SplitLines(text);
    var id, headers := ChosenId(lines, op), HeadersOf(lines);
    HeadersAfterAdd(text, op);
    IdsByHeaders(lines);
    StandIds(headers, entries);
    assert id == IdFor(Ids(entries), op);
    WrittenByFittingAdd(text, op);
    if IsHeader(NewHeader(op, id)) {
      NewHeaderStands(op, id);
      StandAppended(headers, entries, NewHeader(op, id), Entry(id, op.kind, op.pr, op.phase, op.ts, None));
    } else {
      assert headers + [] == headers;
    }
  }

  /** The first header with an id, on its line and among the entries. */
  lemma FirstWithId(lines: seq<string>, entries: seq<Entry>, id: string)
    requires Stand(HeadersOf(lines), entries)
    ensures var k := FindEntry(lines, id);
            if k == |lines| then FindId(entries, id) == |entries|
            else
              var j := |HeadersOf(lines[..k])|;
              && FindId(entries, id) == j < |entries|
              && ParseHeader(lines[k]) == Some(HeadersOf(lines)[j])
              && forall h :: Around(lines, k, [h]) == HeadersOf(lines)[j := h]
  {
    hide HeadersOf, ParseHeader, StandsFor;
    var k := FindEntry(lines, id);
    NoneBefore(lines, k, id);
    var j := |HeadersOf(lines[..k])|;
    if k < |lines| {
      HeadersAround(lines, k);
      var here := ParseHeader(lines[k]).value;
      assert HeadersIn(lines[k]) == [here];
      var before, after := HeadersOf(lines[..k]), HeadersOf(lines[k + 1..]);
      assert HeadersOf(lines) == before + [here] + after;
      forall i | 0 <= i < j ensures HeadersOf(lines)[i].id != id {
        assert before[i] in before;
      }
      forall h ensures Around(lines, k, [h]) == HeadersOf(lines)[j := h] {
        assert (before + [here] + after)[j := h] == before + [h] + after;
      }
      StandsAtId(HeadersOf(lines), entries, id, j);
    } else {
      assert lines[..k] == lines;
      forall i | 0 <= i < j ensures HeadersOf(lines)[i].id != id {
        assert HeadersOf(lines)[i] in HeadersOf(lines);
      }
      StandsAtId(HeadersOf(lines), entries, id, j);
    }
  }

  lemma NoneBefore(lines: seq<string>, k: nat, id: string)
    requires k <= |lines| && forall i :: 0 <= i < k ==> !IsEntry(lines[i], id)
    ensures forall h :: h in HeadersOf(lines[..k]) ==> h.id != id
  {
    hide HeadersOf, ParseHeader;
    forall h | h in HeadersOf(lines[..k]) ensures h.id != id {
      HeaderIsOnALine(lines[..k], h);
      var l :| l in lines[..k] && ParseHeader(l) == Some(h);
      var i :| 0 <= i < k && lines[i] == l;
      assert !IsEntry(lines[i], id);
    }
  }

  lemma StandsAtId(headers: seq<Header>, entries: seq<Entry>, id: string, j: nat)
    requires Stand(headers, entries) && j <= |headers| && (j < |headers| ==> headers[j].id == id)
    requires forall i :: 0 <= i < j ==> headers[i].id != id
    ensures FindId(entries, id) == j
  {
    hide CleanField, ContainsText;
    forall i | 0 <= i < |headers| ensures entries[i].id == headers[i].id {
      assert StandsFor(headers[i], entries[i]);
    }
    FindIdIs(entries, id, j);
  }

  lemma PendingStands(h: Header, e: Entry)
    requires StandsFor(h, e)
    ensures (h.status == PENDING <==> e.outcome == None) && (e.outcome == None ==> Rewritable(h))
  {
    hide ContainsText;
    assert PENDING[0] == 'p' && RESOLVED[0] == 'r';
  }

  lemma ResolvedStands(h: Header, e: Entry, op: Op)
    requires op.Resolve? && StandsFor(h, e) && e.outcome == None && !ContainsText(op.at, VERDICT_APPROVED)
    ensures StandsFor(ResolvedHeader(h, op), e.(outcome := Some(op.verdict)))
  {
    ResolutionSaysVerdict(op);
    hide ContainsText, Resolution, CleanField;
  }

  lemma WrittenByFittingResolve(text: string, op: Op, h: Header)
    requires op.Resolve? && Fits(text, op) && Resolvable(SplitLines(text), op.target) && Rewritable(h)
    requires ParseHeader(SplitLines(text)[FindEntry(SplitLines(text), op.target)]) == Some(h)
    ensures Written(text, op) == [ResolvedHeader(h, op)]
  {
    hide SplitLines, FindEntry, HeadersOf, Split, ParseHeader, ResolvedLine, LaterLines, ContainsText, Rewritable;
    var lines := SplitLines(text);
    var line := lines[FindEntry(lines, op.target)];
    assert line in lines;
    ResolvedLineWritten(line, op, h);
    assert [ResolvedHeader(h, op)] + [] == [ResolvedHeader(h, op)];
  }

  lemma ResolveStands(text: string, entries: seq<Entry>, op: Op)
    requires op.Resolve? && Closed(text) && Fits(text, op) && Stand(HeadersOf(SplitLines(text)), entries)
    ensures Stand(HeadersOf(SplitLines(ResolveText(text, op))), Step(entries, op))
  {
    hide HeadersOf, ParseHeader, SplitLines, StandsFor, FindEntry, Around, Written, ResolvedHeader, Rewritable,
         ContainsText;
    var lines := SplitLines(text);
    var k := FindEntry(lines, op.target);
    var headers := HeadersOf(lines);
    FirstWithId(lines, entries, op.target);
    if k < |lines| {
      var j := FindId(entries, op.target);
      PendingStands(headers[j], entries[j]);
      if PendingEntry(lines[k]) {
        HeadersAfterResolve(text, op);
        WrittenByFittingResolve(text, op, headers[j]);
        ResolvedStands(headers[j], entries[j], op);
      }
    }
  }

  // ---------------------------------------------------------------- runs

  lemma FittingInit(ops: seq<Op>)
    requires ops != [] && FittingRun(ops)
    ensures FittingRun(ops[..|ops| - 1]) && Fits(TextAfter(ops[..|ops| - 1]), ops[|ops| - 1])
  {
    hide Fits, TextAfter;
    var init := ops[..|ops| - 1];
    forall i | 0 <= i < |init| ensures Fits(TextAfter(init[..i]), init[i]) {
      assert init[..i] == ops[..i];
      assert Fits(TextAfter(ops[..i]), ops[i]);
    }
  }

  /** After any run of fitting commands the headers recognised in the file stand for exactly the entries added, in
      order, each with the verdict it was given. */
  lemma {:induction false} TextTellsHistory(ops: seq<Op>)
    requires FittingRun(ops)
    ensures Stand(HeadersOf(SplitLines(TextAfter(ops))), History(ops))
  {
    hide FittingRun, Fits, Stand, HeadersOf, SplitLines, AddText, ResolveText, Step, Closed;
    if ops == [] {
      NothingStands();
    } else {
      var init, op := ops[..|ops| - 1], ops[|ops| - 1];
      FittingInit(ops);
      TextTellsHistory(init);
      AckedRunIff(init, "");
      if op.Add? {
        AddStands(TextAfter(init), History(init), op);
      } else {
        ResolveStands(TextAfter(init), History(init), op);
      }
    }
  }

  lemma NothingStands()
    ensures Stand(HeadersOf(SplitLines("")), [])
  {
    EmptySplit();
  }

  lemma StandAcks(headers: seq<Header>, entries: seq<Entry>, pr: string)
    requires Stand(headers, entries)
    ensures HasAck(headers, pr) <==> Acked(entries, pr)
  {
    hide CleanField, ContainsText;
    forall i | 0 <= i < |headers|
      ensures AckHeader(headers[i], pr)
              <==> entries[i].kind == "ack-needed" && entries[i].pr == pr && entries[i].outcome == Some(Approved)
    {
      assert StandsFor(headers[i], entries[i]);
      assert PENDING[0] == 'p' && RESOLVED[0] == 'r';
    }
    hide StandsFor, AckHeader;
    if h :| h in headers && AckHeader(h, pr) {
      var i :| 0 <= i < |headers| && headers[i] == h;
      assert entries[i] in entries;
    }
    if e :| e in entries && e.kind == ACK_NEEDED && e.pr == pr && e.outcome == Some(Approved) {
      var i :| 0 <= i < |entries| && entries[i] == e;
      assert headers[i] in headers;
    }
  }

  /** After any run of fitting commands check-ack succeeds for a pull request exactly when some ack-needed entry of
      it was resolved approved. */
  lemma CheckAckIff(ops: seq<Op>, pr: string)
    requires FittingRun(ops)
    ensures AckedLines(SplitLines(TextAfter(ops)), pr) <==> Acked(History(ops), pr)
  {
    hide FittingRun, Stand, HeadersOf, SplitLines, TextAfter, History, HasAck, Acked, AckedLines;
    TextTellsHistory(ops);
    AckedByHeaders(SplitLines(TextAfter(ops)), pr);
    StandAcks(HeadersOf(SplitLines(TextAfter(ops))), History(ops), pr);
  }

  /** Ids given automatically never repeat in the file of a run of fitting commands. */
  lemma AutoIdsDistinct(ops: seq<Op>)
    requires FittingRun(ops) && forall op :: op in ops && op.Add? ==> op.id == None
    ensures var ids := IdsOf(SplitLines(TextAfter(ops))); forall i, j :: 0 <= i < j < |ids| ==> ids[i] != ids[j]
  {
    hide FittingRun, Stand, HeadersOf, SplitLines, TextAfter, History, IdsOf;
    var lines := SplitLines(TextAfter(ops));
    TextTellsHistory(ops);
    IdsByHeaders(lines);
    StandIds(HeadersOf(lines), History(ops));
    HistoryIdsDistinct(ops);
  }

  // ---------------------------------------------------------------- conditions on the commands alone

  lemma {:induction false} NoLaterLines(texts: seq<string>)
    requires LineClean(texts)
    ensures LaterLines(texts) == []
  {
    hide Split;
    if texts != [] {
      assert texts[0] in texts && forall t :: t in texts[1..] ==> t in texts;
      SplitOne(texts[0]);
      NoLaterLines(texts[1..]);
    }
  }

  lemma NotesClean(op: Op)
    requires op.Add? && CleanOp(op)
    ensures LineClean(Notes(op))
  {
    hide CleanField, IsKind, Tight;
    assert NoNewline("Summary: ");
  }

  /** A header of tight fields takes one line, which is recognised as itself or not at all. */
  lemma TightLine(h: Header)
    requires Tight(h.id) && IsKind(h.kind) && Tight(h.pr) && Tight(h.phase) && Tight(h.ts)
    requires h.status == PENDING && h.rest == ""
    ensures HeadersOf(Split(HeaderLine(h))) == if IsHeader(h) then [h] else []
  {
    TightHeaderParses(h);
    HeaderLineClean(h);
    SplitOne(HeaderLine(h));
    HeadersOfOne(HeaderLine(h));
    hide Split, HeaderLine, ParseHeader, IsHeader, HeadersOf;
  }

  lemma CleanAddFits(op: Op, id: string)
    requires op.Add? && CleanOp(op) && Tight(id)
    ensures AddFits(op, id)
  {
    NotesClean(op);
    NoLaterLines(Notes(op));
    RemarksOf(op, id);
    NoHeaders();
    TightLine(NewHeader(op, id));
    hide Split, LaterLines, Remarks, HeaderLine, IsHeader, ContainsText, Notes, HeadersOf;
  }

  /** Commands whose fields hold no space, line feed or text that a resolve rewrites, whose notes are single lines and
      whose time stamps do not say approved fit every file, whatever the kinds, ids, dates and counts. */
  lemma CleanRunFits(ops: seq<Op>)
    requires CleanHistory(ops)
    ensures FittingRun(ops)
  {
    forall i | 0 <= i < |ops| ensures Fits(TextAfter(ops[..i]), ops[i]) {
      var op := ops[i];
      assert op in ops;
      hide TextAfter, HeadersOf, LaterLines, AddFits, ContainsText, CleanField, IsKind, SplitLines;
      if op.Add? {
        assert Tight(op.ts) by {
          CleanTime(op);
        }
        ChosenIdTight(IdsOf(SplitLines(TextAfter(ops[..i]))), op);
        CleanAddFits(op, ChosenId(SplitLines(TextAfter(ops[..i])), op));
      } else {
        NoLaterLines([op.note]);
        NoHeaders();
      }
    }
  }

  lemma CleanTime(op: Op)
    requires op.Add? && CleanOp(op)
    ensures Tight(op.ts)
  {
  }

  lemma NoHeaders()
    ensures HeadersOf([]) == []
  {
  }

  // ---------------------------------------------------------------- ids that are not recognised

  /** From the thousandth id of a day on, and for a time stamp that does not start with a date of eight digits, an
      entry without spaces in its fields is written but not recognised: the headers are those from before, so it can
      be neither resolved nor found by check-ack, and the next automatic id is the same again. */
  lemma ThousandthEntryLost(text: string, op: Op)
    requires op.Add? && Closed(text) && (op.id.Some? ==> op.id.value == "")
    requires !RoomOn(IdsOf(SplitLines(text)), DateOf(op.ts))
    requires IsKind(op.kind) && Tight(op.pr) && Tight(op.phase) && Tight(op.ts)
    requires HeadersOf(LaterLines(Notes(op))) == []
    ensures HeadersOf(SplitLines(AddText(text, op))) == HeadersOf(SplitLines(text))
    ensures ChosenId(SplitLines(AddText(text, op)), op) == ChosenId(SplitLines(text), op)
  {
    var lines, after := SplitLines(text), SplitLines(AddText(text, op));
    var id := ChosenId(lines, op);
    ChosenIdTight(IdsOf(lines), op);
    NextIdFresh(IdsOf(lines), DateOf(op.ts));
    HeadersAfterAdd(text, op);
    TightLine(NewHeader(op, id));
    RemarksOf(op, id);
    WrittenByAddIs(text, op);
    hide HeadersOf, SplitLines, AddText, Split, LaterLines, Remarks, HeaderLine, IdsOf, NextId, RoomOn, IsId, Written;
    assert Written(text, op) == [];
    assert HeadersOf(lines) + [] == HeadersOf(lines);
    IdsByHeaders(lines);
    IdsByHeaders(after);
  }

  lemma WrittenByAddIs(text: string, op: Op)
    requires op.Add?
    ensures var id := ChosenId(SplitLines(text), op);
            Written(text, op)
            == HeadersOf(Split(HeaderLine(NewHeader(op, id)))) + HeadersOf(LaterLines(Remarks(op, id)))
  {
  }
}
