/** The queue file itself: a text, appended to and rewritten by the commands. */
module RunQueueFile {
  import opened Text
  import opened QueueFormat
  import opened RunQueue
  import opened RunQueueLaws

  function FileText(lines: seq<string>): string {
    if lines == [] then "" else Join(lines) + NL
  }

  /** What add writes at the end of the file. */
  function AddText(text: string, op: Op): string
    requires op.Add?
  {
    var lines := SplitLines(text);
    text + (if lines == [] then FileText(HEADER_LINES) else "") + NL + Join(Block(op, ChosenId(lines, op))) + NL
  }

  predicate Resolvable(lines: seq<string>, target: string) {
    var k := FindEntry(lines, target);
    k < |lines| && PendingEntry(lines[k])
  }

  function ResolveText(text: string, op: Op): string
    requires op.Resolve?
  {
    var lines := SplitLines(text);
    if Resolvable(lines, op.target) then Join(ResolveLines(lines, op)) + NL else text
  }

  function StepText(text: string, op: Op): string {
    if op.Add? then AddText(text, op) else ResolveText(text, op)
  }

  class QueueFile {
    var text: string

    constructor ()
      ensures text == ""
    {
      text := "";
    }

    method Append(op: Op) returns (id: string)
      requires op.Add?
      modifies this
      ensures text == AddText(old(text), op) && id == ChosenId(SplitLines(old(text)), op)
    {
      hide NextId, IdsOf, HeaderLine, SplitLines, Join, DateOf;
      var lines := SplitLines(text);
      id := if op.id.Some? && op.id.value != "" then op.id.value else NextId(IdsOf(lines), DateOf(op.ts));
      var block := [HeaderLine(Header(id, op.kind, op.pr, op.phase, op.ts, PENDING, "")),
                    "- " + ("Summary: " + op.summary)];
      var details := op.details;
      assert Notes(op)[1..] == details;
      for i := 0 to |details|
        invariant block + Bullets(details[i..]) == [HeaderLine(NewHeader(op, id))] + Bullets(Notes(op))
        modifies {}
      {
        Assoc(block, ["- " + details[i]], Bullets(details[i + 1..]));
        assert details[i..][1..] == details[i + 1..];
        block := block + ["- " + details[i]];
      }
      assert details[|details|..] == [] && block + [] == block;
      if op.kind == ACK_NEEDED || op.kind == ESCALATION {
        block := block + ["- Resolve: `/autonomy:ack " + id + " approved|rejected`"];
      }
      assert block == Block(op, id);
      if lines == [] {
        text := text + FileText(HEADER_LINES);
      }
      text := text + NL + Join(block) + NL;
    }

    /** Rewrites the first entry with the id when it is pending; answers 4 otherwise. */
    method ResolveEntry(op: Op) returns (code: int)
      requires op.Resolve?
      modifies this
      ensures text == ResolveText(old(text), op)
      ensures code == if Resolvable(SplitLines(old(text)), op.target) then 0 else 4
    {
      hide SplitLines, Join, ReplaceAll, Resolution;
      var lines := SplitLines(text);
      var i := 0;
      while i < |lines| && !IsEntry(lines[i], op.target)
        invariant i <= |lines| && forall j :: 0 <= j < i ==> !IsEntry(lines[j], op.target)
        modifies {}
      {
        i := i + 1;
      }
      FindEntryIs(lines, op.target, i);
      if i == |lines| {
        return 4;
      }
      var h := ParseHeader(lines[i]).value;
      if h.status != PENDING {
        return 4;
      }
      var rewritten := lines[i := ReplaceAll(lines[i], STATUS_PENDING, STATUS_RESOLVED) + Resolution(op)];
      if op.note != "" {
        rewritten := rewritten[..i + 1] + ["- Resolution note: " + op.note] + rewritten[i + 1..];
      }
      assert rewritten == ResolveLines(lines, op);
      text := Join(rewritten) + NL;
      code := 0;
    }

    /** 0 when an approved ack exists for the pull request, 3 otherwise. */
    method CheckAck(pr: string) returns (code: int)
      ensures code == if AckedLines(SplitLines(text), pr) then 0 else 3
    {
      var lines := SplitLines(text);
      for i := 0 to |lines|
        invariant forall j :: 0 <= j < i ==> !AckLine(lines[j], pr)
      {
        if AckLine(lines[i], pr) {
          return 0;
        }
      }
      code := 3;
    }
  }

  lemma FindEntryIs(lines: seq<string>, id: string, k: nat)
    requires k <= |lines| && (k < |lines| ==> IsEntry(lines[k], id))
    requires forall i :: 0 <= i < k ==> !IsEntry(lines[i], id)
    ensures FindEntry(lines, id) == k
  {
  }

  // ---------------------------------------------------------------- text and lines

  lemma LinesOfText(lines: seq<string>)
    requires LineClean(lines)
    ensures SplitLines(FileText(lines)) == lines
  {
    if lines != [] {
      var text := FileText(lines);
      assert text[..|text| - 1] == Join(lines);
      SplitJoin(lines);
    }
  }

  function TextAfter(ops: seq<Op>): string {
    if ops == [] then "" else StepText(TextAfter(ops[..|ops| - 1]), ops[|ops| - 1])
  }

  lemma BlockNotEmpty(op: Op, id: string)
    requires op.Add?
    ensures Block(op, id) != []
  {
  }
}
