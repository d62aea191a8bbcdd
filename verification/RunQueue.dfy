/** RUN-QUEUE: an append-only text log of interrupt events, resolved in place, consulted before a merge. */
module RunQueue {
  import opened Text
  import opened QueueFormat

  datatype Verdict = Approved | Rejected

  datatype Op =
    | Add(kind: string, pr: string, phase: string, ts: string, id: Option<string>,
          summary: string, details: seq<string>)
    | Resolve(target: string, verdict: Verdict, at: string, note: string)

  function VerdictText(v: Verdict): string {
    if v.Approved? then "approved" else "rejected"
  }

  const PENDING: string := "pending"
  const RESOLVED: string := "resolved"
  const STATUS_PENDING: string := "status:pending"
  const STATUS_RESOLVED: string := "status:resolved"
  const VERDICT_APPROVED: string := "verdict:approved"
  const ACK_NEEDED: string := "ack-needed"
  const ESCALATION: string := "escalation"

  /** The heading of a new file (its wording is shortened here). */
  const HEADER_LINES: seq<string> := ["# RUN-QUEUE", "", "> Append-only log"]

  // ---------------------------------------------------------------- ids

  function DigitValue(c: char): nat {
    if '0' <= c <= '9' then (c as int) - ('0' as int) else 0
  }

  function Number(s: string): nat {
    if s == "" then 0 else 10 * Number(s[..|s| - 1]) + DigitValue(s[|s| - 1])
  }

  function Digit(n: nat): char
    requires n < 10
  {
    (n + '0' as int) as char
  }

  function Decimal(n: nat): string {
    if n < 10 then [Digit(n)] else Decimal(n / 10) + [Digit(n % 10)]
  }

  /** Three digits at least. */
  function Padded(n: nat): string {
    if n < 10 then "00" + Decimal(n) else if n < 100 then "0" + Decimal(n) else Decimal(n)
  }

  function IdPrefix(date: string): string {
    "RQ-" + date + "-"
  }

  /** The first ten characters of a timestamp, dashes left out. */
  function DateOf(ts: string): string {
    Undashed(if |ts| < 10 then ts else ts[..10])
  }

  function Undashed(s: string): string {
    if s == "" then "" else (if s[0] == '-' then "" else [s[0]]) + Undashed(s[1..])
  }

  /** The number an id carries, or 0 when it belongs to another date. */
  function NumberFor(id: string, date: string): nat {
    if IsId(id) && StartsWith(id, IdPrefix(date)) then Number(id[12..]) else 0
  }

  function MaxNumber(ids: seq<string>, date: string): nat {
    if ids == [] then 0
    else
      var m := MaxNumber(ids[..|ids| - 1], date);
      var n := NumberFor(ids[|ids| - 1], date);
      if n > m then n else m
  }

  function NextId(ids: seq<string>, date: string): string {
    IdPrefix(date) + Padded(MaxNumber(ids, date) + 1)
  }

  lemma {:induction false} MaxNumberBounds(ids: seq<string>, date: string)
    ensures forall id :: id in ids ==> NumberFor(id, date) <= MaxNumber(ids, date)
  {
    if ids != [] {
      MaxNumberBounds(ids[..|ids| - 1], date);
      assert ids == ids[..|ids| - 1] + [ids[|ids| - 1]];
    }
  }

  lemma NumberPadded(n: nat)
    requires n < 1000
    ensures |Padded(n)| == 3 && Digits(Padded(n)) && Number(Padded(n)) == n
  {
    var s := Padded(n);
    assert Decimal(n / 10) == if n < 100 then [Digit(n / 10)] else Decimal(n / 100) + [Digit(n / 10 % 10)];
    assert |s| == 3 && s[0] == Digit(n / 100) && s[1] == Digit(n / 10 % 10) && s[2] == Digit(n % 10);
    assert s[..2] == [s[0], s[1]] && s[..2][..1] == [s[0]] && s[..2][..1][..0] == "";
    assert Number([s[0]]) == n / 100;
    assert Number(s[..2]) == 10 * (n / 100) + n / 10 % 10;
  }

  lemma NextIdParts(ids: seq<string>, date: string)
    ensures var id, p := NextId(ids, date), Padded(MaxNumber(ids, date) + 1);
            && |id| == 4 + |date| + |p| && id[..3] == "RQ-" && id[3..3 + |date|] == date && id[3 + |date|] == '-'
            && id[4 + |date|..] == p && |p| >= 3
  {
    var id, p := NextId(ids, date), Padded(MaxNumber(ids, date) + 1);
    assert id == "RQ-" + date + "-" + p;
    hide Padded, NextId, MaxNumber;
    PaddedThree(MaxNumber(ids, date) + 1);
    IdParts(date, p);
  }

  lemma IdParts(date: string, p: string)
    ensures var id := "RQ-" + date + "-" + p;
            && |id| == 4 + |date| + |p| && id[..3] == "RQ-" && id[3..3 + |date|] == date && id[3 + |date|] == '-'
            && id[4 + |date|..] == p
  {
    var head := "RQ-" + date;
    assert head[..3] == "RQ-" && head[3..] == date;
    var id := head + "-" + p;
    assert id[..|head|] == head && id[|head| + 1..] == p;
    SliceOfSlice(id, 0, |head|, 0, 3);
    SliceOfSlice(id, 0, |head|, 3, |head|);
  }

  lemma PaddedThree(n: nat)
    ensures |Padded(n)| >= 3
  {
    DecimalLength(n);
  }

  lemma {:induction false} DecimalLength(n: nat)
    ensures |Decimal(n)| >= if n < 10 then 1 else if n < 100 then 2 else if n < 1000 then 3 else 4
  {
    if n >= 10 {
      DecimalLength(n / 10);
    }
  }

  /** The days and numbers an automatic id can be made of: a date of eight digits, and at most 998 used. */
  predicate RoomOn(ids: seq<string>, date: string) {
    |date| == 8 && Digits(date) && MaxNumber(ids, date) < 999
  }

  /** An automatic id has the recognised form exactly while the date has eight digits and room, and is then new;
      among recognised ids it is always new. */
  lemma NextIdFresh(ids: seq<string>, date: string)
    ensures IsId(NextId(ids, date)) <==> RoomOn(ids, date)
    ensures RoomOn(ids, date) || (forall id :: id in ids ==> IsId(id)) ==> NextId(ids, date) !in ids
  {
    var id, n := NextId(ids, date), MaxNumber(ids, date) + 1;
    NextIdParts(ids, date);
    if RoomOn(ids, date) {
      NumberPadded(n);
      assert id[..12] == IdPrefix(date);
      MaxNumberBounds(ids, date);
      assert NumberFor(id, date) == n;
    } else if IsId(id) {
      RecognisedParts(id, date);
      DecimalLength(n);
    }
  }

  lemma NoDashInDate(id: string, i: nat)
    requires IsId(id) && 3 <= i < 11
    ensures id[i] != '-'
  {
    assert id[3..11][i - 3] in id[3..11];
  }

  lemma RecognisedParts(id: string, date: string)
    requires IsId(id) && 4 + |date| <= |id| - 3 && id[3..3 + |date|] == date && id[3 + |date|] == '-'
    ensures |date| == 8 && Digits(date) && |id| == 15
  {
    if |date| < 8 {
      NoDashInDate(id, 3 + |date|);
    }
  }

  /** From 999 on the next id has four digits and is no id at all. */
  lemma NextIdOverflows(ids: seq<string>, date: string)
    requires MaxNumber(ids, date) >= 999
    ensures !IsId(NextId(ids, date))
  {
    NextIdFresh(ids, date);
  }

  // ---------------------------------------------------------------- the three commands on lines

  /** The ids of the entries in the file. */
  function IdsOf(lines: seq<string>): seq<string> {
    if lines == [] then []
    else
      match ParseHeader(lines[0])
      case None => IdsOf(lines[1..])
      case Some(h) => [h.id] + IdsOf(lines[1..])
  }

  function NewHeader(op: Op, id: string): Header
    requires op.Add?
  {
    Header(id, op.kind, op.pr, op.phase, op.ts, PENDING, "")
  }

  function Bullets(notes: seq<string>): seq<string> {
    if notes == [] then [] else ["- " + notes[0]] + Bullets(notes[1..])
  }

  /** The summary and the details. */
  function Notes(op: Op): seq<string>
    requires op.Add?
  {
    ["Summary: " + op.summary] + op.details
  }

  /** How to resolve the entry, when it waits for someone. */
  function Help(op: Op, id: string): seq<string>
    requires op.Add?
  {
    if op.kind == ACK_NEEDED || op.kind == ESCALATION
    then ["- Resolve: `/autonomy:ack " + id + " approved|rejected`"] else []
  }

  /** The entry's header, its notes, and how to resolve it. */
  function Block(op: Op, id: string): seq<string>
    requires op.Add?
  {
    [HeaderLine(NewHeader(op, id))] + Bullets(Notes(op)) + Help(op, id)
  }

  /** The id given, or the next one for the date when none is given. */
  function IdFor(ids: seq<string>, op: Op): string
    requires op.Add?
  {
    if op.id.Some? && op.id.value != "" then op.id.value else NextId(ids, DateOf(op.ts))
  }

  function ChosenId(lines: seq<string>, op: Op): string
    requires op.Add?
  {
    IdFor(IdsOf(lines), op)
  }

  function IsEntry(line: string, id: string): bool {
    match ParseHeader(line) case None => false case Some(h) => h.id == id
  }

  /** The first entry with this id, or the length of the file. */
  function FindEntry(lines: seq<string>, id: string): (k: nat)
    ensures k <= |lines| && (k < |lines| ==> IsEntry(lines[k], id))
    ensures forall i :: 0 <= i < k ==> !IsEntry(lines[i], id)
  {
    if lines == [] || IsEntry(lines[0], id) then 0 else 1 + FindEntry(lines[1..], id)
  }

  function Resolution(op: Op): string
    requires op.Resolve?
  {
    " | resolved:" + op.at + " | verdict:" + VerdictText(op.verdict)
  }

  function ResolvedLine(line: string, op: Op): string
    requires op.Resolve?
  {
    ReplaceAll(line, STATUS_PENDING, STATUS_RESOLVED) + Resolution(op)
  }

  function NoteLines(op: Op): seq<string>
    requires op.Resolve?
  {
    if op.note == "" then [] else ["- Resolution note: " + op.note]
  }

  function PendingEntry(line: string): bool {
    match ParseHeader(line) case None => false case Some(h) => h.status == PENDING
  }

  /** Only a pending first entry with the id is rewritten. */
  function ResolveLines(lines: seq<string>, op: Op): seq<string>
    requires op.Resolve?
  {
    var k := FindEntry(lines, op.target);
    if k == |lines| || !PendingEntry(lines[k]) then lines
    else lines[..k] + [ResolvedLine(lines[k], op)] + NoteLines(op) + lines[k + 1..]
  }

  predicate AckLine(line: string, pr: string) {
    match ParseHeader(line)
    case None => false
    case Some(h) => h.kind == ACK_NEEDED && h.pr == pr && h.status == RESOLVED && ContainsText(h.rest, VERDICT_APPROVED)
  }

  predicate AckedLines(lines: seq<string>, pr: string) {
    exists line | line in lines :: AckLine(line, pr)
  }

  // ---------------------------------------------------------------- what the log is about

  datatype Entry = Entry(id: string, kind: string, pr: string, phase: string, ts: string, outcome: Option<Verdict>)

  function Ids(entries: seq<Entry>): (ids: seq<string>)
    ensures |ids| == |entries| && forall i :: 0 <= i < |ids| ==> ids[i] == entries[i].id
  {
    if entries == [] then [] else [entries[0].id] + Ids(entries[1..])
  }

  function FindId(entries: seq<Entry>, id: string): (k: nat)
    ensures k <= |entries| && (k < |entries| ==> entries[k].id == id)
    ensures forall i :: 0 <= i < k ==> entries[i].id != id
  {
    if entries == [] || entries[0].id == id then 0 else 1 + FindId(entries[1..], id)
  }

  /** An entry is one only when its header is recognised. */
  function Step(entries: seq<Entry>, op: Op): seq<Entry> {
    match op
    case Add(kind, pr, phase, ts, _, _, _) =>
      var id := IdFor(Ids(entries), op);
      if IsHeader(NewHeader(op, id)) then entries + [Entry(id, kind, pr, phase, ts, None)] else entries
    case Resolve(target, verdict, _, _) =>
      var k := FindId(entries, target);
      if k == |entries| || entries[k].outcome.Some? then entries
      else entries[k := entries[k].(outcome := Some(verdict))]
  }

  function History(ops: seq<Op>): seq<Entry> {
    if ops == [] then [] else Step(History(ops[..|ops| - 1]), ops[|ops| - 1])
  }

  predicate Acked(entries: seq<Entry>, pr: string) {
    exists e | e in entries :: e.kind == "ack-needed" && e.pr == pr && e.outcome == Some(Approved)
  }

  // ---------------------------------------------------------------- line-clean operations

  /** No space, no line feed. */
  ghost predicate Tight(s: string) {
    ' ' !in s && NoNewline(s)
  }

  /** A field that survives the rewriting of the status. */
  ghost predicate CleanField(s: string) {
    Tight(s) && !ContainsText(s, STATUS_PENDING)
  }

  /** Any kind, id, date and count: only the characters of the texts matter. */
  ghost predicate CleanOp(op: Op) {
    match op
    case Add(kind, pr, phase, ts, id, summary, details) =>
      && IsKind(kind) && CleanField(pr) && CleanField(phase) && CleanField(ts)
      && (id.Some? ==> Tight(id.value)) && NoNewline(summary) && forall n :: n in details ==> NoNewline(n)
    case Resolve(_, _, at, note) =>
      NoNewline(at) && NoNewline(note) && !ContainsText(at, VERDICT_APPROVED)
  }

  ghost predicate CleanHistory(ops: seq<Op>) {
    forall op :: op in ops ==> CleanOp(op)
  }
}
