/** Automatic ids, read off the characters of the time stamp and the ids in the file. */
module RunQueueDates {
  import opened Text
  import opened QueueFormat
  import opened RunQueue
  import opened RunQueueFile
  import opened RunQueueInput
  import opened RunQueueHistory

  ghost predicate DigitText(s: string) {
    forall i :: 0 <= i < |s| ==> '0' <= s[i] <= '9'
  }

  /** Three digits that say n. */
  ghost predicate ThreeDigits(p: string, n: nat) {
    && |p| == 3 && DigitText(p)
    && n == 100 * (p[0] as int - '0' as int) + 10 * (p[1] as int - '0' as int) + (p[2] as int - '0' as int)
  }

  /** The id carries this day and number. */
  ghost predicate NumberedOn(id: string, day: string, n: nat) {
    exists p :: ThreeDigits(p, n) && id == "RQ-" + day + "-" + p
  }

  /** n is the largest number these entries use on the day, or 0. */
  ghost predicate LargestOn(headers: seq<Header>, day: string, n: nat) {
    && (forall i, k: nat :: 0 <= i < |headers| && NumberedOn(headers[i].id, day, k) ==> k <= n)
    && (n > 0 ==> exists i :: 0 <= i < |headers| && NumberedOn(headers[i].id, day, n))
  }

  // ---------------------------------------------------------------- the day

  lemma {:induction false} UndashedConcat(a: string, b: string)
    ensures Undashed(a + b) == Undashed(a) + Undashed(b)
  {
    if a == "" {
      assert a + b == b;
    } else {
      assert (a + b)[0] == a[0] && (a + b)[1..] == a[1..] + b;
      UndashedConcat(a[1..], b);
    }
  }

  lemma {:induction false} UndashedDigits(s: string)
    requires DigitText(s)
    ensures Undashed(s) == s
  {
    if s != "" {
      UndashedDigits(s[1..]);
      assert s == [s[0]] + s[1..];
    }
  }

  lemma DashGone(s: string)
    requires DigitText(s)
    ensures Undashed("-" + s) == s
  {
    UndashedDigits(s);
    assert ("-" + s)[0] == '-' && ("-" + s)[1..] == s;
  }

  lemma DayOf(y: string, m: string, d: string, rest: string)
    requires |y| == 4 && |m| == 2 && |d| == 2 && DigitText(y) && DigitText(m) && DigitText(d)
    ensures DateOf(y + "-" + m + "-" + d + rest) == y + m + d
  {
    var ts, head := y + "-" + m + "-" + d + rest, y + "-" + m + "-" + d;
    assert |head| == 10 && ts[..10] == head;
    hide DigitText, Undashed;
    assert head == y + ("-" + m) + ("-" + d);
    UndashedConcat(y + ("-" + m), "-" + d);
    UndashedConcat(y, "-" + m);
    UndashedDigits(y);
    DashGone(m);
    DashGone(d);
  }

  // ---------------------------------------------------------------- the numbers

  lemma DigitsAre(s: string)
    ensures Digits(s) <==> DigitText(s)
  {
    assert forall i :: 0 <= i < |s| ==> s[i] in s;
  }

  lemma NumberOfThree(p: string)
    requires |p| == 3 && DigitText(p)
    ensures ThreeDigits(p, Number(p))
  {
    assert p[..2] == [p[0], p[1]] && p[..2][..1] == [p[0]] && p[..2][..1][..0] == "";
    assert Number([p[0]]) == DigitValue(p[0]);
    assert Number(p[..2]) == 10 * DigitValue(p[0]) + DigitValue(p[1]);
  }

  lemma NumberedParts(id: string, day: string, p: string)
    requires |day| == 8 && |p| == 3 && id == "RQ-" + day + "-" + p
    ensures |id| == 15 && id[..3] == "RQ-" && id[3..11] == day && id[11] == '-' && id[12..] == p
    ensures StartsWith(id, IdPrefix(day))
  {
    IdParts(day, p);
    assert id[..12] == IdPrefix(day);
  }

  lemma NumberedIs(id: string, day: string, n: nat)
    requires |day| == 8 && DigitText(day)
    ensures NumberedOn(id, day, n) <==> IsId(id) && StartsWith(id, IdPrefix(day)) && n == NumberFor(id, day)
  {
    DigitsAre(day);
    hide DigitText;
    if NumberedOn(id, day, n) {
      var p :| ThreeDigits(p, n) && id == "RQ-" + day + "-" + p;
      ThreeAre(p, n);
      NumberedParts(id, day, p);
    }
    if IsId(id) && StartsWith(id, IdPrefix(day)) {
      var p := id[12..];
      DigitsAre(p);
      NumberOfThree(p);
      assert id == id[..12] + p;
    }
  }

  lemma ThreeAre(p: string, n: nat)
    requires ThreeDigits(p, n)
    ensures |p| == 3 && Digits(p) && n == Number(p)
  {
    DigitsAre(p);
    NumberOfThree(p);
  }

  lemma {:induction false} MaxNumberReached(ids: seq<string>, date: string)
    requires MaxNumber(ids, date) > 0
    ensures exists i :: 0 <= i < |ids| && NumberFor(ids[i], date) == MaxNumber(ids, date)
  {
    var init, last := ids[..|ids| - 1], ids[|ids| - 1];
    if NumberFor(last, date) > MaxNumber(init, date) {
      assert NumberFor(ids[|ids| - 1], date) == MaxNumber(ids, date);
    } else {
      MaxNumberReached(init, date);
      var i :| 0 <= i < |init| && NumberFor(init[i], date) == MaxNumber(init, date);
      assert ids[i] == init[i];
    }
  }

  /** The number that the command finds. */
  lemma LargestIs(headers: seq<Header>, day: string, n: nat)
    requires |day| == 8 && DigitText(day) && LargestOn(headers, day, n)
    ensures MaxNumber(HeaderIds(headers), day) == n
  {
    hide NumberedOn, DigitText, NumberFor, IsId, StartsWith;
    var ids := HeaderIds(headers);
    var m := MaxNumber(ids, day);
    MaxNumberBounds(ids, day);
    if n > 0 {
      var i :| 0 <= i < |headers| && NumberedOn(headers[i].id, day, n);
      NumberedIs(headers[i].id, day, n);
      assert ids[i] in ids;
    }
    if m > 0 {
      MaxNumberReached(ids, day);
      var j :| 0 <= j < |ids| && NumberFor(ids[j], day) == m;
      PositiveNumber(ids[j], day);
      NumberedIs(ids[j], day, m);
      assert headers[j].id == ids[j];
    }
  }

  lemma PositiveNumber(id: string, day: string)
    requires NumberFor(id, day) > 0
    ensures IsId(id) && StartsWith(id, IdPrefix(day))
  {
  }

  // ---------------------------------------------------------------- recognised lines

  /** The entry expression, group by group. */
  ghost predicate EntryGroups(h: Header) {
    && (exists day, n :: |day| == 8 && DigitText(day) && NumberedOn(h.id, day, n))
    && h.kind != "" && (forall i :: 0 <= i < |h.kind| ==> 'a' <= h.kind[i] <= 'z' || h.kind[i] == '-')
    && NoSpaces(h.pr) && NoSpaces(h.phase) && NoSpaces(h.ts)
    && h.status != "" && (forall i :: 0 <= i < |h.status| ==> WordLetter(h.status[i]))
    && (h.rest != "" ==> !WordLetter(h.rest[0]))
  }

  ghost predicate NoSpaces(s: string) {
    s != "" && forall i :: 0 <= i < |s| ==> s[i] != ' '
  }

  ghost predicate WordLetter(c: char) {
    c == '_' || '0' <= c <= '9' || 'A' <= c <= 'Z' || 'a' <= c <= 'z'
  }

  lemma IdGroup(id: string)
    ensures IsId(id) <==> exists day, n :: |day| == 8 && DigitText(day) && NumberedOn(id, day, n)
  {
    hide DigitText, NumberedOn, NumberFor;
    if IsId(id) {
      var day := id[3..11];
      DigitsAre(day);
      assert id[..12] == IdPrefix(day);
      NumberedIs(id, day, NumberFor(id, day));
    }
    if day, n :| |day| == 8 && DigitText(day) && NumberedOn(id, day, n) {
      NumberIsNat(id, day, n);
      NumberedIs(id, day, n);
    }
  }

  lemma NumberIsNat(id: string, day: string, n: nat)
    requires NumberedOn(id, day, n)
    ensures n < 1000
  {
  }

  lemma GroupsAre(h: Header)
    ensures IsHeader(h) <==> EntryGroups(h)
  {
    IdGroup(h.id);
    hide IsId, NumberedOn, DigitText;
    assert IsKind(h.kind) <==>
           h.kind != "" && forall i :: 0 <= i < |h.kind| ==> 'a' <= h.kind[i] <= 'z' || h.kind[i] == '-' by {
      assert forall i :: 0 <= i < |h.kind| ==> h.kind[i] in h.kind;
    }
    assert IsWord(h.status) <==> h.status != "" && forall i :: 0 <= i < |h.status| ==> WordLetter(h.status[i]) by {
      assert forall i :: 0 <= i < |h.status| ==> h.status[i] in h.status;
    }
  }

  /** A line is recognised as an entry, and as which, exactly when it is the printed form of groups like these. */
  lemma RecognisedIff(line: string, h: Header)
    ensures ParseHeader(line) == Some(h) <==>
            && EntryGroups(h)
            && line == "### " + h.id + " | " + h.kind + " | pr:" + h.pr + " | phase:" + h.phase + " | " + h.ts
                       + " | status:" + h.status + h.rest
  {
    hide ParseHeader, HeaderLine, IsHeader, EntryGroups;
    HeaderMatchesIff(line, h);
    HeaderLineText(h);
    GroupsAre(h);
  }

  // ---------------------------------------------------------------- an add without an id

  /** The fields are what the expression expects, on one line, and no note hides an entry. */
  ghost predicate PlainAdd(op: Op)
    requires op.Add?
  {
    && (op.id.Some? ==> op.id.value == "")
    && op.kind != "" && (forall i :: 0 <= i < |op.kind| ==> 'a' <= op.kind[i] <= 'z' || op.kind[i] == '-')
    && NoSpaces(op.pr) && NoSpaces(op.phase) && NoSpaces(op.ts)
    && NoNewline(op.pr) && NoNewline(op.phase) && NoNewline(op.ts)
    && HeadersOf(LaterLines(["Summary: " + op.summary] + op.details)) == []
  }

  /** The time stamp starts with this date. */
  ghost predicate Dated(ts: string, y: string, m: string, d: string) {
    && |y| == 4 && |m| == 2 && |d| == 2 && DigitText(y) && DigitText(m) && DigitText(d)
    && y + "-" + m + "-" + d <= ts
  }

  lemma DayOfDated(ts: string, y: string, m: string, d: string)
    requires Dated(ts, y, m, d)
    ensures DateOf(ts) == y + m + d && |y + m + d| == 8 && DigitText(y + m + d)
  {
    var head := y + "-" + m + "-" + d;
    assert ts == head + ts[|head|..];
    DayOf(y, m, d, ts[|head|..]);
  }

  /** An add without an id, on a file where the day of its time stamp has numbers up to n < 999, appends exactly one
      recognised entry: this one, numbered n + 1 on that day. */
  lemma AutomaticIdIsNextOfDay(text: string, op: Op, y: string, m: string, d: string, n: nat)
    requires op.Add? && Closed(text) && PlainAdd(op) && Dated(op.ts, y, m, d)
    requires n < 999 && LargestOn(HeadersOf(SplitLines(text)), y + m + d, n)
    ensures var before, after := HeadersOf(SplitLines(text)), HeadersOf(SplitLines(AddText(text, op)));
            exists id :: NumberedOn(id, y + m + d, n + 1)
                         && after == before + [Header(id, op.kind, op.pr, op.phase, op.ts, "pending", "")]
  {
    hide SplitLines, AddText, HeadersOf, LargestOn, NumberedOn, DigitText, Dated, LaterLines, IsId, FieldsFit,
         NoNewline;
    var lines, day := SplitLines(text), y + m + d;
    DayOfDated(op.ts, y, m, d);
    IdsByHeaders(lines);
    LargestIs(HeadersOf(lines), day, n);
    var id := NextId(IdsOf(lines), day);
    assert ChosenId(lines, op) == id;
    NextNumbered(IdsOf(lines), day, n);
    NewFits(op, id, day, n + 1);
    AddAppendsItsEntryIff(text, op);
  }

  lemma NextNumbered(ids: seq<string>, day: string, n: nat)
    requires |day| == 8 && DigitText(day) && MaxNumber(ids, day) == n < 999
    ensures NumberedOn(NextId(ids, day), day, n + 1) && IsId(NextId(ids, day))
  {
    NumberPadded(n + 1);
    DigitsAre(Padded(n + 1));
    NumberOfThree(Padded(n + 1));
    DigitsAre(day);
    NextIdFresh(ids, day);
  }

  lemma NewFits(op: Op, id: string, day: string, n: nat)
    requires op.Add? && PlainAdd(op) && IsId(id)
    ensures FieldsFit(NewHeader(op, id)) && HeadersOf(LaterLines(Notes(op))) == []
    ensures NewHeader(op, id) == Header(id, op.kind, op.pr, op.phase, op.ts, "pending", "")
  {
    hide HeadersOf, LaterLines, IsId;
    assert IsKind(op.kind);
  }

  /** When the day has used 999, the entry's id has four digits and the file shows the entries it showed before. */
  lemma FullDayLosesEntry(text: string, op: Op, y: string, m: string, d: string)
    requires op.Add? && Closed(text) && PlainAdd(op) && Dated(op.ts, y, m, d)
    requires LargestOn(HeadersOf(SplitLines(text)), y + m + d, 999)
    ensures HeadersOf(SplitLines(AddText(text, op))) == HeadersOf(SplitLines(text))
    ensures ChosenId(SplitLines(text), op) == "RQ-" + y + m + d + "-1000"
  {
    hide SplitLines, AddText, HeadersOf, LargestOn, NumberedOn, DigitText, Dated, LaterLines, IsId, PlainAdd, Tight,
         IsKind, Notes, Padded, IdPrefix;
    var lines, day := SplitLines(text), y + m + d;
    DayOfDated(op.ts, y, m, d);
    IdsByHeaders(lines);
    LargestIs(HeadersOf(lines), day, 999);
    PlainIsTight(op);
    assert ChosenId(lines, op) == NextId(IdsOf(lines), day);
    ThousandthId(y, m, d);
    ThousandthEntryLost(text, op);
  }

  lemma PlainIsTight(op: Op)
    requires op.Add? && PlainAdd(op)
    ensures (op.id.Some? ==> op.id.value == "") && HeadersOf(LaterLines(Notes(op))) == []
    ensures IsKind(op.kind) && Tight(op.pr) && Tight(op.phase) && Tight(op.ts)
  {
    hide HeadersOf, LaterLines;
  }

  lemma ThousandthId(y: string, m: string, d: string)
    ensures IdPrefix(y + m + d) + Padded(1000) == "RQ-" + y + m + d + "-1000"
  {
    assert "RQ-" + y + m + d + "-1000" == "RQ-" + (y + m + d) + "-" + "1000";
    assert Decimal(1) == "1" && Decimal(10) == "10" && Decimal(100) == "100" && Decimal(1000) == "1000";
  }
}
