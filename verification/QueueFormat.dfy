/** The header line of a RUN-QUEUE entry: printed, matched, and rewritten when the entry is resolved. */
module QueueFormat {
  import opened Text

  /** The named groups of the entry expression. */
  datatype Header = Header(id: string, kind: string, pr: string, phase: string, ts: string, status: string,
                           rest: string)

  predicate Digits(s: string) {
    forall c | c in s :: '0' <= c <= '9'
  }

  predicate WordChar(c: char) {
    'a' <= c <= 'z' || 'A' <= c <= 'Z' || '0' <= c <= '9' || c == '_'
  }

  predicate KindChar(c: char) {
    'a' <= c <= 'z' || c == '-'
  }

  /** RQ-, eight digits, a dash, three digits. */
  predicate IsId(s: string) {
    |s| == 15 && s[..3] == "RQ-" && Digits(s[3..11]) && s[11] == '-' && Digits(s[12..])
  }

  /** One or more characters other than a space. */
  predicate IsField(s: string) {
    s != "" && ' ' !in s
  }

  predicate IsKind(s: string) {
    s != "" && forall c | c in s :: KindChar(c)
  }

  predicate IsWord(s: string) {
    s != "" && forall c | c in s :: WordChar(c)
  }

  /** The groups as the expression captures them; the status is the longest word. */
  predicate IsHeader(h: Header) {
    && IsId(h.id) && IsKind(h.kind) && IsField(h.pr) && IsField(h.phase) && IsField(h.ts) && IsWord(h.status)
    && (h.rest != "" ==> !WordChar(h.rest[0]))
  }

  /** What comes before each captured field. */
  const LITERALS: seq<string> := ["### ", " | ", " | pr:", " | phase:", " | "]
  const STATUS: string := " | status:"

  function PrintFields(lits: seq<string>, fields: seq<string>, rest: string): string
    requires |lits| == |fields|
  {
    if lits == [] then rest else lits[0] + (fields[0] + PrintFields(lits[1..], fields[1..], rest))
  }

  function HeaderLine(h: Header): string {
    PrintFields(LITERALS, [h.id, h.kind, h.pr, h.phase, h.ts], STATUS + (h.status + h.rest))
  }

  /** The line as it is written. */
  lemma HeaderLineText(h: Header)
    ensures HeaderLine(h) == "### " + h.id + " | " + h.kind + " | pr:" + h.pr + " | phase:" + h.phase + " | " + h.ts
                             + " | status:" + h.status + h.rest
  {
    var end := STATUS + (h.status + h.rest);
    PrintFive("### ", " | ", " | pr:", " | phase:", " | ", h.id, h.kind, h.pr, h.phase, h.ts, end);
    assert "### " + (h.id + (" | " + (h.kind + (" | pr:" + (h.pr + (" | phase:" + (h.phase
           + (" | " + (h.ts + end)))))))))
           == "### " + h.id + " | " + h.kind + " | pr:" + h.pr + " | phase:" + h.phase + " | " + h.ts + end;
  }

  lemma PrintFive(l0: string, l1: string, l2: string, l3: string, l4: string,
                  f0: string, f1: string, f2: string, f3: string, f4: string, end: string)
    ensures PrintFields([l0, l1, l2, l3, l4], [f0, f1, f2, f3, f4], end) ==
            l0 + (f0 + (l1 + (f1 + (l2 + (f2 + (l3 + (f3 + (l4 + (f4 + end)))))))))
  {
    PrintStep(l4, [], f4, [], end);
    PrintStep(l3, [l4], f3, [f4], end);
    PrintStep(l2, [l3, l4], f2, [f3, f4], end);
    PrintStep(l1, [l2, l3, l4], f1, [f2, f3, f4], end);
    PrintStep(l0, [l1, l2, l3, l4], f0, [f1, f2, f3, f4], end);
  }

  lemma PrintStep(l: string, lits: seq<string>, f: string, fields: seq<string>, rest: string)
    requires |lits| == |fields|
    ensures PrintFields([l] + lits, [f] + fields, rest) == l + (f + PrintFields(lits, fields, rest))
  {
    assert ([l] + lits)[1..] == lits && ([f] + fields)[1..] == fields;
  }

  // ---------------------------------------------------------------- matching

  function FieldEnd(s: string): (k: nat)
    ensures k <= |s|
  {
    if s == "" || s[0] == ' ' then 0 else 1 + FieldEnd(s[1..])
  }

  function WordEnd(s: string): (k: nat)
    ensures k <= |s|
  {
    if s == "" || !WordChar(s[0]) then 0 else 1 + WordEnd(s[1..])
  }

  /** A literal, then the characters up to the next space, and what follows. */
  function TakeField(s: string, lit: string): Option<(string, string)> {
    if !StartsWith(s, lit) then None
    else
      var t := s[|lit|..];
      Some((t[..FieldEnd(t)], t[FieldEnd(t)..]))
  }

  function TakeFields(s: string, lits: seq<string>): Option<(seq<string>, string)>
    ensures TakeFields(s, lits).Some? ==> |TakeFields(s, lits).value.0| == |lits|
  {
    if lits == [] then Some(([], s))
    else
      match TakeField(s, lits[0])
      case None => None
      case Some(p) =>
        match TakeFields(p.1, lits[1..])
        case None => None
        case Some(q) => Some(([p.0] + q.0, q.1))
  }

  function ParseHeader(line: string): Option<Header> {
    match TakeFields(line, LITERALS)
    case None => None
    case Some(p) =>
      if !StartsWith(p.1, STATUS) then None
      else
        var f, t := p.0, p.1[|STATUS|..];
        var h := Header(f[0], f[1], f[2], f[3], f[4], t[..WordEnd(t)], t[WordEnd(t)..]);
        if IsHeader(h) then Some(h) else None
  }

  lemma {:induction false} FieldEndOf(f: string, rest: string)
    requires ' ' !in f && (rest != "" ==> rest[0] == ' ')
    ensures FieldEnd(f + rest) == |f|
  {
    if f == "" {
      assert f + rest == rest;
    } else {
      assert (f + rest)[1..] == f[1..] + rest && f[0] in f && forall c :: c in f[1..] ==> c in f;
      FieldEndOf(f[1..], rest);
    }
  }

  lemma {:induction false} WordEndOf(f: string, rest: string)
    requires (forall c :: c in f ==> WordChar(c)) && (rest != "" ==> !WordChar(rest[0]))
    ensures WordEnd(f + rest) == |f|
  {
    if f == "" {
      assert f + rest == rest;
    } else {
      assert (f + rest)[1..] == f[1..] + rest && f[0] in f && forall c :: c in f[1..] ==> c in f;
      WordEndOf(f[1..], rest);
    }
  }

  /** Taking a printed field. */
  lemma FieldTaken(lit: string, f: string, rest: string)
    requires ' ' !in f && (rest != "" ==> rest[0] == ' ')
    ensures TakeField(lit + (f + rest), lit) == Some((f, rest))
  {
    var s, t := lit + (f + rest), f + rest;
    assert s[..|lit|] == lit && s[|lit|..] == t;
    FieldEndOf(f, rest);
    assert t[..|f|] == f && t[|f|..] == rest;
  }

  ghost predicate SpaceFirst(l: string) {
    l != "" && l[0] == ' '
  }

  /** Taking printed fields gives them back. */
  lemma {:induction false} FieldsTaken(lits: seq<string>, fields: seq<string>, rest: string)
    requires |lits| == |fields| && (forall f :: f in fields ==> ' ' !in f)
    requires SpaceFirst(rest) && forall i :: 0 < i < |lits| ==> SpaceFirst(lits[i])
    ensures TakeFields(PrintFields(lits, fields, rest), lits) == Some((fields, rest))
  {
    if lits != [] {
      var lits', fields' := lits[1..], fields[1..];
      var more := PrintFields(lits', fields', rest);
      FieldsTaken(lits', fields', rest);
      assert SpaceFirst(more) by {
        if lits' != [] {
          assert lits'[0] == lits[1];
        }
      }
      assert fields[0] in fields;
      hide SpaceFirst;
      SpaceFirstMeans(more);
      FieldTaken(lits[0], fields[0], more);
      assert [fields[0]] + fields' == fields;
    }
  }

  lemma SpaceFirstMeans(l: string)
    ensures SpaceFirst(l) ==> l != "" && l[0] == ' '
  {
  }

  /** What was taken was printed. */
  lemma {:induction false} TakenFieldsPrint(s: string, lits: seq<string>)
    requires TakeFields(s, lits).Some?
    ensures var p := TakeFields(s, lits).value; s == PrintFields(lits, p.0, p.1)
  {
    if lits != [] {
      var p := TakeField(s, lits[0]).value;
      TakenFieldsPrint(p.1, lits[1..]);
      var q := TakeFields(p.1, lits[1..]).value;
      assert ([p.0] + q.0)[1..] == q.0;
      assert s == lits[0] + (p.0 + p.1);
    }
  }

  lemma IdChars(id: string)
    requires IsId(id)
    ensures forall c :: c in id ==> c == 'R' || c == 'Q' || c == '-' || '0' <= c <= '9'
  {
    forall i | 0 <= i < |id| ensures id[i] == 'R' || id[i] == 'Q' || id[i] == '-' || '0' <= id[i] <= '9' {
      if i < 3 {
        assert id[..3][i] == "RQ-"[i];
      } else if 3 <= i < 11 {
        assert id[3..11][i - 3] == id[i] && id[i] in id[3..11];
      } else if 12 <= i {
        assert id[12..][i - 12] == id[i] && id[i] in id[12..];
      }
    }
  }

  /** Matching undoes printing. */
  lemma PrintedHeaderParses(h: Header)
    requires IsHeader(h)
    ensures ParseHeader(HeaderLine(h)) == Some(h)
  {
    IdChars(h.id);
    assert !KindChar(' ') && ' ' !in h.id && ' ' !in h.kind;
    var fields, t := [h.id, h.kind, h.pr, h.phase, h.ts], h.status + h.rest;
    FieldsTaken(LITERALS, fields, STATUS + t);
    WordEndOf(h.status, h.rest);
    hide TakeFields, PrintFields, IsHeader, WordEnd;
    assert (STATUS + t)[..|STATUS|] == STATUS && (STATUS + t)[|STATUS|..] == t;
    assert t[..|h.status|] == h.status && t[|h.status|..] == h.rest;
  }

  /** A line matches with these groups exactly when it is their printed form. */
  lemma HeaderMatchesIff(line: string, h: Header)
    ensures ParseHeader(line) == Some(h) <==> IsHeader(h) && line == HeaderLine(h)
  {
    if IsHeader(h) && line == HeaderLine(h) {
      PrintedHeaderParses(h);
    }
    if ParseHeader(line) == Some(h) {
      ParsedHeaderPrints(line);
    }
  }

  lemma FiveFields(f: seq<string>)
    requires |f| == 5
    ensures f == [f[0], f[1], f[2], f[3], f[4]]
  {
  }

  lemma StatusAndRest(s: string, k: nat)
    requires StartsWith(s, STATUS) && k <= |s| - |STATUS|
    ensures var t := s[|STATUS|..]; s == STATUS + (t[..k] + t[k..])
  {
    assert s[..|STATUS|] == STATUS;
  }

  lemma ParsedHeaderPrints(line: string)
    requires ParseHeader(line).Some?
    ensures IsHeader(ParseHeader(line).value) && line == HeaderLine(ParseHeader(line).value)
  {
    TakenFieldsPrint(line, LITERALS);
    var p := TakeFields(line, LITERALS).value;
    hide TakeFields, PrintFields, IsHeader, WordEnd, StartsWith;
    StatusAndRest(p.1, WordEnd(p.1[|STATUS|..]));
    FiveFields(p.0);
  }

  lemma NotAHeader(line: string)
    requires !StartsWith(line, "### ")
    ensures ParseHeader(line) == None
  {
  }

  // ---------------------------------------------------------------- str.replace

  /** Every occurrence, leftmost first, without overlap. */
  function ReplaceAll(s: string, target: string, replacement: string): string
    requires target != ""
    decreases |s|
  {
    if |s| < |target| then s
    else if StartsWith(s, target) then replacement + ReplaceAll(s[|target|..], target, replacement)
    else [s[0]] + ReplaceAll(s[1..], target, replacement)
  }

  lemma ContainsTail(s: string, p: string)
    requires s != "" && !StartsWith(s, p)
    ensures ContainsText(s, p) <==> ContainsText(s[1..], p)
  {
    if i: nat :| i <= |s| && OccursAt(s, p, i) {
      assert OccursAt(s[1..], p, i - 1) by {
        assert s[1..][i - 1..i - 1 + |p|] == s[i..i + |p|];
      }
    }
    if i: nat :| i <= |s[1..]| && OccursAt(s[1..], p, i) {
      assert s[1..][i..i + |p|] == s[i + 1..i + 1 + |p|];
      assert OccursAt(s, p, i + 1);
    }
  }

  lemma StartsMeansContains(s: string, p: string)
    requires StartsWith(s, p)
    ensures ContainsText(s, p)
  {
    assert OccursAt(s, p, 0);
  }

  lemma ShorterHasNone(s: string, p: string)
    requires |s| < |p|
    ensures !ContainsText(s, p)
  {
  }

  /** Replacing by a longer text changes exactly the texts with an occurrence, and lengthens them. */
  lemma {:induction false} ReplaceLengthens(s: string, p: string, q: string)
    requires p != "" && |q| > |p|
    ensures !ContainsText(s, p) ==> ReplaceAll(s, p, q) == s
    ensures ContainsText(s, p) ==> |ReplaceAll(s, p, q)| > |s|
    decreases |s|
  {
    if |s| < |p| {
      ShorterHasNone(s, p);
    } else if StartsWith(s, p) {
      StartsMeansContains(s, p);
      ReplaceLengthens(s[|p|..], p, q);
    } else {
      ContainsTail(s, p);
      ReplaceLengthens(s[1..], p, q);
      assert s == [s[0]] + s[1..];
    }
  }

  /** A text without spaces never reaches over one. */
  lemma SpaceSplitsStart(a: string, b: string, p: string)
    requires p != "" && ' ' !in p && a != ""
    ensures StartsWith(a + " " + b, p) <==> StartsWith(a, p)
  {
    var s := a + " " + b;
    if |p| > |a| {
      assert |p| <= |s| ==> s[..|p|][|a|] == ' ';
    } else {
      assert s[..|p|] == a[..|p|];
    }
  }

  lemma ReplaceHit(s: string, p: string, q: string)
    requires p != "" && StartsWith(s, p)
    ensures ReplaceAll(s, p, q) == q + ReplaceAll(s[|p|..], p, q)
  {
  }

  /** A first character that starts no occurrence stays. */
  lemma ReplaceMiss(s: string, p: string, q: string)
    requires p != "" && s != "" && !StartsWith(s, p)
    ensures ReplaceAll(s, p, q) == [s[0]] + ReplaceAll(s[1..], p, q)
  {
    if |s| < |p| {
      assert ReplaceAll(s, p, q) == s && ReplaceAll(s[1..], p, q) == s[1..];
    }
  }

  lemma SpaceStartsNone(s: string, p: string)
    requires p != "" && ' ' !in p && s != "" && s[0] == ' '
    ensures !StartsWith(s, p)
  {
    assert |p| <= |s| ==> s[..|p|][0] == ' ' && p[0] in p;
  }

  lemma {:induction false} ReplaceAtSpace(a: string, b: string, p: string, q: string)
    requires p != "" && ' ' !in p
    ensures ReplaceAll(a + " " + b, p, q) == ReplaceAll(a, p, q) + " " + ReplaceAll(b, p, q)
    decreases |a|
  {
    var s := a + " " + b;
    if a == "" {
      assert s[1..] == b && ReplaceAll(a, p, q) == "";
      hide ReplaceAll, StartsWith;
      SpaceStartsNone(s, p);
      ReplaceMiss(s, p, q);
    } else {
      SpaceSplitsStart(a, b, p);
      if StartsWith(s, p) {
        var a' := a[|p|..];
        assert s[|p|..] == a' + " " + b;
        ReplaceHit(s, p, q);
        ReplaceHit(a, p, q);
        hide ReplaceAll, StartsWith;
        ReplaceAtSpace(a', b, p, q);
        Assoc(q, ReplaceAll(a', p, q), " ");
        Assoc(q, ReplaceAll(a', p, q) + " ", ReplaceAll(b, p, q));
      } else {
        var a' := a[1..];
        hide ReplaceAll, StartsWith;
        assert s[1..] == a' + " " + b && s[0] == a[0];
        ReplaceMiss(s, p, q);
        ReplaceMiss(a, p, q);
        ReplaceAtSpace(a', b, p, q);
        Assoc([a[0]], ReplaceAll(a', p, q), " ");
        Assoc([a[0]], ReplaceAll(a', p, q) + " ", ReplaceAll(b, p, q));
      }
    }
  }

  lemma OccurrenceAvoidsSpaces(s: string, p: string, i: nat)
    requires OccursAt(s, p, i) && ' ' !in p
    ensures forall k :: i <= k < i + |p| ==> s[k] != ' '
  {
    forall k | i <= k < i + |p| ensures s[k] != ' ' {
      assert s[i..i + |p|][k - i] == s[k] && p[k - i] in p;
    }
  }

  lemma OccursInPart(s: string, p: string, i: nat, from: nat, to: nat)
    requires from <= to <= |s|
    requires from <= i && i + |p| <= to
    ensures OccursAt(s, p, i) <==> OccursAt(s[from..to], p, i - from)
  {
    SliceOfSlice(s, from, to, i - from, i - from + |p|);
  }

  /** An occurrence of a text without spaces lies on one side of a space. */
  lemma ContainsAtSpace(a: string, b: string, p: string)
    requires p != "" && ' ' !in p
    ensures ContainsText(a + " " + b, p) <==> ContainsText(a, p) || ContainsText(b, p)
  {
    var s, n := a + " " + b, |a| + 1;
    assert s[0..|a|] == a && s[n..|s|] == b && s[|a|] == ' ';
    if i: nat :| i <= |s| && OccursAt(s, p, i) {
      OccurrenceAvoidsSpaces(s, p, i);
      assert i + |p| <= |a| || n <= i;
      if i + |p| <= |a| {
        OccursInPart(s, p, i, 0, |a|);
      } else {
        OccursInPart(s, p, i, n, |s|);
      }
    }
    if i: nat :| i <= |a| && OccursAt(a, p, i) {
      OccursInPart(s, p, i, 0, |a|);
    }
    if i: nat :| i <= |b| && OccursAt(b, p, i) {
      OccursInPart(s, p, n + i, n, |s|);
    }
  }
}
