/** What the commands write and look for in the queue file, character by character. */
module RunQueueText {
  import opened Text
  import opened QueueFormat
  import opened RunQueue
  import opened RunQueueLaws
  import opened RunQueueFile
  import opened RunQueueInput
  import opened RunQueueDates

  // ---------------------------------------------------------------- add

  /** One line for each detail. */
  function Listed(details: seq<string>): string {
    if details == [] then "" else "\n- " + details[0] + Listed(details[1..])
  }

  lemma JoinFirst(first: string, rest: seq<string>)
    ensures Join([first] + rest) == first + if rest == [] then "" else "\n" + Join(rest)
  {
    assert ([first] + rest)[1..] == rest;
    Assoc(first, "\n", Join(rest));
  }

  lemma Bulleted(first: string, note: string, listed: string, end: string)
    ensures first + ("\n" + ("- " + note + listed + end)) == first + ("\n- " + note + listed) + end
  {
    assert "\n" + ("- " + note + listed + end) == ("\n- " + note + listed) + end;
    Assoc(first, "\n- " + note + listed, end);
  }

  lemma {:induction false} BulletsJoined(first: string, notes: seq<string>, last: seq<string>)
    ensures Join([first] + Bullets(notes) + last)
            == first + Listed(notes) + (if last == [] then "" else "\n" + Join(last))
    decreases |notes|
  {
    if notes == [] {
      assert [first] + Bullets(notes) + last == [first] + last;
      hide Join;
      JoinFirst(first, last);
    } else {
      var bullet := "- " + notes[0];
      var rest := [bullet] + Bullets(notes[1..]) + last;
      assert [first] + Bullets(notes) + last == [first] + rest;
      hide Join, Bullets;
      BulletsJoined(bullet, notes[1..], last);
      JoinFirst(first, rest);
      Bulleted(first, notes[0], Listed(notes[1..]), if last == [] then "" else "\n" + Join(last));
    }
  }

  lemma Pieces(start: string, line: string, notes: string, end: string)
    ensures start + "\n" + (line + notes + end) + "\n" == start + "\n" + line + notes + end + "\n"
  {
  }

  /** Exactly what an add appends to the file: a blank line, the entry's line, its summary and details, and for an
      entry that waits for someone how to resolve it. */
  lemma AddWritesExactly(text: string, op: Op)
    requires op.Add?
    ensures var id := ChosenId(SplitLines(text), op);
            AddText(text, op)
            == text + (if text == "" then FileText(HEADER_LINES) else "")
               + "\n" + ("### " + id + " | " + op.kind + " | pr:" + op.pr + " | phase:" + op.phase + " | " + op.ts
                         + " | status:" + "pending" + "")
               + ("\n- " + ("Summary: " + op.summary) + Listed(op.details))
               + (if op.kind == "ack-needed" || op.kind == "escalation"
                  then "\n" + ("- Resolve: `/autonomy:ack " + id + " approved|rejected`") else "")
               + "\n"
  {
    hide HeaderLine, SplitLines, ChosenId, Bullets, Notes, Help, Listed, Join;
    var id := ChosenId(SplitLines(text), op);
    var h := NewHeader(op, id);
    var help := Help(op, id);
    HeaderLineText(h);
    EmptyHasNoLines(text);
    BulletsJoined(HeaderLine(h), Notes(op), help);
    NotesListed(op);
    BlockIs(op, id);
    HelpJoined(op, id);
    hide Block;
    var start := text + if text == "" then FileText(HEADER_LINES) else "";
    Pieces(start, HeaderLine(h), Listed(Notes(op)), if help == [] then "" else "\n" + Join(help));
  }

  lemma NotesListed(op: Op)
    requires op.Add?
    ensures Listed(Notes(op)) == "\n- " + ("Summary: " + op.summary) + Listed(op.details)
  {
    assert Notes(op)[0] == "Summary: " + op.summary && Notes(op)[1..] == op.details;
  }

  lemma BlockIs(op: Op, id: string)
    requires op.Add?
    ensures Block(op, id) == [HeaderLine(NewHeader(op, id))] + Bullets(Notes(op)) + Help(op, id)
  {
  }

  lemma HelpJoined(op: Op, id: string)
    requires op.Add?
    ensures (if Help(op, id) == [] then "" else "\n" + Join(Help(op, id)))
            == if op.kind == "ack-needed" || op.kind == "escalation"
               then "\n" + ("- Resolve: `/autonomy:ack " + id + " approved|rejected`") else ""
  {
    hide Join;
    if op.kind == "ack-needed" || op.kind == "escalation" {
      OneJoined("- Resolve: `/autonomy:ack " + id + " approved|rejected`");
    }
  }

  lemma OneJoined(line: string)
    ensures Join([line]) == line
  {
  }

  // ---------------------------------------------------------------- resolve

  /** Line k is the first entry with this id, and h is its header. */
  ghost predicate FirstEntry(lines: seq<string>, target: string, k: nat, h: Header) {
    && k < |lines| && ParseHeader(lines[k]) == Some(h) && h.id == target
    && forall i :: 0 <= i < k ==> ParseHeader(lines[i]).None? || ParseHeader(lines[i]).value.id != target
  }

  /** Exactly what a resolve leaves: its first entry with the id, when pending, has its status replaced and the
      resolution added, and the note follows; nothing else changes. */
  lemma ResolveWritesExactly(text: string, op: Op, k: nat, h: Header)
    requires op.Resolve? && FirstEntry(SplitLines(text), op.target, k, h)
    ensures var lines := SplitLines(text);
            var said := if op.verdict.Approved? then "approved" else "rejected";
            ResolveText(text, op)
            == if h.status != "pending" then text
               else Join(lines[..k]
                         + [ReplaceAll(lines[k], "status:pending", "status:resolved")
                            + (" | resolved:" + op.at + " | verdict:" + said)]
                         + (if op.note == "" then [] else ["- Resolution note: " + op.note])
                         + lines[k + 1..]) + "\n"
  {
    hide SplitLines, ParseHeader, ReplaceAll, Join;
    FindEntryIs(SplitLines(text), op.target, k);
  }

  lemma NothingToResolve(text: string, op: Op)
    requires op.Resolve?
    requires forall i :: 0 <= i < |SplitLines(text)| ==>
               var p := ParseHeader(SplitLines(text)[i]); p.None? || p.value.id != op.target
    ensures ResolveText(text, op) == text
  {
    hide SplitLines, ParseHeader, ReplaceAll, Join;
    FindEntryIs(SplitLines(text), op.target, |SplitLines(text)|);
  }

  // ---------------------------------------------------------------- check-ack

  /** The line is a resolved ack-needed entry of the pull request that says approved after its status. */
  ghost predicate SaysApproved(line: string, pr: string) {
    exists id, phase, ts, a, b ::
      && EntryGroups(Header(id, "ack-needed", pr, phase, ts, "resolved", a + "verdict:approved" + b))
      && line == "### " + id + " | " + "ack-needed" + " | pr:" + pr + " | phase:" + phase + " | " + ts
                 + " | status:" + "resolved" + (a + "verdict:approved" + b)
  }

  lemma ApprovedPart(rest: string)
    ensures ContainsText(rest, "verdict:approved") <==> exists a, b :: rest == a + "verdict:approved" + b
  {
    var word := "verdict:approved";
    if i: nat :| i <= |rest| && OccursAt(rest, word, i) {
      assert rest == rest[..i] + word + rest[i + |word|..];
    }
    if a, b :| rest == a + word + b {
      assert OccursAt(rest, word, |a|);
    }
  }

  lemma AckLineIs(line: string, pr: string)
    ensures AckLine(line, pr) <==> SaysApproved(line, pr)
  {
    hide ParseHeader, ContainsText, EntryGroups;
    if AckLine(line, pr) {
      var h := ParseHeader(line).value;
      RecognisedIff(line, h);
      ApprovedPart(h.rest);
      var a, b :| h.rest == a + "verdict:approved" + b;
      assert h == Header(h.id, "ack-needed", pr, h.phase, h.ts, "resolved", a + "verdict:approved" + b);
    }
    if id, phase, ts, a, b :|
      && EntryGroups(Header(id, "ack-needed", pr, phase, ts, "resolved", a + "verdict:approved" + b))
      && line == "### " + id + " | " + "ack-needed" + " | pr:" + pr + " | phase:" + phase + " | " + ts
                 + " | status:" + "resolved" + (a + "verdict:approved" + b) {
      var h := Header(id, "ack-needed", pr, phase, ts, "resolved", a + "verdict:approved" + b);
      RecognisedIff(line, h);
      ApprovedPart(h.rest);
    }
  }

  /** check-ack succeeds exactly when some line of the file says so. */
  lemma CheckAckReads(lines: seq<string>, pr: string)
    ensures AckedLines(lines, pr) <==> exists i :: 0 <= i < |lines| && SaysApproved(lines[i], pr)
  {
    hide AckLine, SaysApproved;
    forall i | 0 <= i < |lines| ensures AckLine(lines[i], pr) <==> SaysApproved(lines[i], pr) {
      AckLineIs(lines[i], pr);
    }
    assert forall i :: 0 <= i < |lines| ==> lines[i] in lines;
  }
}
