/** What the client's parser makes of any text, frame by frame and line by line. */
module SseReading {
  import opened Text
  import opened SseFrames

  // ---------------------------------------------------------------- one line

  /** The line without one carriage return at its end, if it has one there. */
  ghost predicate WithoutReturn(raw: string, line: string) {
    raw == line + "\r" || (raw == line && (line == "" || line[|line| - 1] != '\r'))
  }

  ghost predicate JsWhite(s: string) {
    forall i :: 0 <= i < |s| ==> JsSpace(s[i])
  }

  /** The line names the event n: event: and the name with white space around it. */
  ghost predicate Names(raw: string, n: string) {
    exists a, b :: WithoutReturn(raw, "event:" + a + n + b) && JsWhite(a) && JsWhite(b)
                   && (n != "" ==> !JsSpace(n[0]) && !JsSpace(n[|n| - 1]))
  }

  /** The line carries the data d: data:, one space or none, and the data. */
  ghost predicate Carries(raw: string, d: string) {
    WithoutReturn(raw, "data: " + d) || (WithoutReturn(raw, "data:" + d) && (d == "" || d[0] != ' '))
  }

  ghost predicate NamesEvent(raw: string) {
    exists n :: Names(raw, n)
  }

  ghost predicate CarriesData(raw: string) {
    exists d :: Carries(raw, d)
  }

  lemma ReturnDropped(raw: string, line: string)
    ensures WithoutReturn(raw, line) <==> DropReturn(raw) == line
  {
    if DropReturn(raw) == line && raw != line {
      assert raw == raw[..|raw| - 1] + "\r";
    }
  }

  lemma JsWhiteIs(s: string)
    ensures JsWhite(s) <==> Blank(s, JsSpace)
  {
    hide JsSpace;
    assert forall i :: 0 <= i < |s| ==> s[i] in s;
  }

  lemma BareIs(n: string)
    ensures Stripped(n, JsSpace) <==> (n != "" ==> !JsSpace(n[0]) && !JsSpace(n[|n| - 1]))
  {
  }

  lemma {:induction false} LeadingOnly(a: string, s: string)
    requires Blank(a, JsSpace)
    ensures LeadingBlanks(a + s, JsSpace) == |a| + LeadingBlanks(s, JsSpace)
  {
    hide JsSpace;
    if a == "" {
      assert a + s == s;
    } else {
      assert (a + s)[0] == a[0] && (a + s)[1..] == a[1..] + s && a[0] in a;
      assert forall c :: c in a[1..] ==> c in a;
      LeadingOnly(a[1..], s);
    }
  }

  lemma {:induction false} TrailingOnly(s: string, b: string)
    requires Blank(b, JsSpace)
    ensures TrailingBlanks(s + b, JsSpace) == TrailingBlanks(s, JsSpace) + |b|
    decreases |b|
  {
    hide JsSpace;
    if b == "" {
      assert s + b == s;
    } else {
      var init := b[..|b| - 1];
      assert (s + b)[|s + b| - 1] == b[|b| - 1] && (s + b)[..|s + b| - 1] == s + init && b[|b| - 1] in b;
      assert forall c :: c in init ==> c in b;
      TrailingOnly(s, init);
    }
  }

  /** Trimming takes white space off both ends of a bare text. */
  lemma PaddingTrimmed(a: string, n: string, b: string)
    requires Blank(a, JsSpace) && Blank(b, JsSpace) && Stripped(n, JsSpace)
    ensures Strip(a + n + b, JsSpace) == n
  {
    hide JsSpace, Blank;
    if n == "" {
      assert a + n + b == (a + b) + "";
      BlankBoth(a, b);
      LeadingOnly(a + b, "");
      assert LStrip(a + n + b, JsSpace) == "";
    } else {
      Assoc(a, n, b);
      LeadingOnly(a, n + b);
      assert (n + b)[0] == n[0];
      assert LStrip(a + n + b, JsSpace) == n + b;
      TrailingOnly(n, b);
      assert RStrip(n + b, JsSpace) == n;
    }
  }

  lemma BlankBoth(a: string, b: string)
    requires Blank(a, JsSpace) && Blank(b, JsSpace)
    ensures Blank(a + b, JsSpace)
  {
  }

  lemma NamesIs(raw: string, n: string)
    ensures Names(raw, n) <==> StartsWith(DropReturn(raw), "event:") && n == Strip(DropReturn(raw)[6..], JsSpace)
  {
    hide JsSpace, WithoutReturn, DropReturn, JsWhite, Blank, Stripped, Strip;
    var line := DropReturn(raw);
    BareIs(n);
    if a, b :| WithoutReturn(raw, "event:" + a + n + b) && JsWhite(a) && JsWhite(b)
               && (n != "" ==> !JsSpace(n[0]) && !JsSpace(n[|n| - 1])) {
      ReturnDropped(raw, "event:" + a + n + b);
      JsWhiteIs(a);
      JsWhiteIs(b);
      PaddingTrimmed(a, n, b);
      assert line == "event:" + (a + n + b);
      assert line[..6] == "event:" && line[6..] == a + n + b;
    }
    if StartsWith(line, "event:") && n == Strip(line[6..], JsSpace) {
      var a, b := StripEnds(line[6..], JsSpace);
      JsWhiteIs(a);
      JsWhiteIs(b);
      assert line == "event:" + (a + n + b) == "event:" + a + n + b;
      ReturnDropped(raw, "event:" + a + n + b);
    }
  }

  lemma CarriesIs(raw: string, d: string)
    ensures Carries(raw, d) <==> StartsWith(DropReturn(raw), "data:") && d == DropSpace(DropReturn(raw)[5..])
  {
    hide WithoutReturn, DropReturn;
    var line := DropReturn(raw);
    ReturnDropped(raw, "data: " + d);
    ReturnDropped(raw, "data:" + d);
    if line == "data: " + d {
      assert line[..5] == "data:" && line[5..] == " " + d;
    }
    if line == "data:" + d {
      assert line[..5] == "data:" && line[5..] == d;
    }
    if StartsWith(line, "data:") && d == DropSpace(line[5..]) {
      var rest := line[5..];
      assert line == "data:" + rest;
      if rest != "" && rest[0] == ' ' {
        assert line == "data: " + d;
      }
    }
  }

  // ---------------------------------------------------------------- one frame

  /** The name is that of the last line that names an event, or "message". */
  ghost predicate SaysName(lines: seq<string>, name: string) {
    if lines == [] then name == "message"
    else
      var init, last := lines[..|lines| - 1], lines[|lines| - 1];
      if NamesEvent(last) then Names(last, name) else SaysName(init, name)
  }

  /** The data are those of the lines that carry data, in order. */
  ghost predicate SaysData(lines: seq<string>, data: seq<string>) {
    if lines == [] then data == []
    else
      var init, last := lines[..|lines| - 1], lines[|lines| - 1];
      if CarriesData(last) then data != [] && SaysData(init, data[..|data| - 1]) && Carries(last, data[|data| - 1])
      else SaysData(init, data)
  }

  lemma LineReads(fields: Fields, raw: string)
    ensures var r := ReadLine(fields, raw);
            && (NamesEvent(raw) ==> Names(raw, r.event) && r.dataLines == fields.dataLines && !CarriesData(raw))
            && (CarriesData(raw) ==>
                  r.event == fields.event
                  && exists d :: Carries(raw, d) && r.dataLines == fields.dataLines + [d])
            && (!NamesEvent(raw) && !CarriesData(raw) ==> r == fields)
  {
    hide Names, Carries, Strip, DropReturn, DropSpace;
    var line := DropReturn(raw);
    forall n ensures Names(raw, n) <==> StartsWith(line, "event:") && n == Strip(line[6..], JsSpace) {
      NamesIs(raw, n);
    }
    forall d ensures Carries(raw, d) <==> StartsWith(line, "data:") && d == DropSpace(line[5..]) {
      CarriesIs(raw, d);
    }
    if StartsWith(line, "event:") {
      NotBoth(line);
      assert Names(raw, Strip(line[6..], JsSpace));
    } else if StartsWith(line, "data:") {
      assert Carries(raw, DropSpace(line[5..]));
    }
  }

  lemma NotBoth(line: string)
    requires StartsWith(line, "event:")
    ensures !StartsWith(line, "data:")
  {
    assert line[..6][0] == 'e' && (|line| >= 5 ==> line[..5][0] == line[0]);
  }

  lemma {:induction false} LinesRead(lines: seq<string>)
    ensures SaysName(lines, ReadLines(lines).event) && SaysData(lines, ReadLines(lines).dataLines)
  {
    if lines != [] {
      hide ReadLine, Names, Carries, NamesEvent, CarriesData;
      var init, last := lines[..|lines| - 1], lines[|lines| - 1];
      LinesRead(init);
      LineReads(ReadLines(init), last);
      if CarriesData(last) {
        var d :| Carries(last, d) && ReadLines(lines).dataLines == ReadLines(init).dataLines + [d];
        var data := ReadLines(lines).dataLines;
        assert data[..|data| - 1] == ReadLines(init).dataLines && data[|data| - 1] == d;
      }
    }
  }

  lemma {:induction false} OneName(lines: seq<string>, m: string, n: string)
    requires SaysName(lines, m) && SaysName(lines, n)
    ensures m == n
  {
    if lines != [] {
      var init, last := lines[..|lines| - 1], lines[|lines| - 1];
      if NamesEvent(last) {
        NamesIs(last, m);
        NamesIs(last, n);
      } else {
        OneName(init, m, n);
      }
    }
  }

  lemma {:induction false} OneData(lines: seq<string>, d: seq<string>, e: seq<string>)
    requires SaysData(lines, d) && SaysData(lines, e)
    ensures d == e
  {
    if lines != [] {
      var init, last := lines[..|lines| - 1], lines[|lines| - 1];
      if CarriesData(last) {
        OneData(init, d[..|d| - 1], e[..|e| - 1]);
        CarriesIs(last, d[|d| - 1]);
        CarriesIs(last, e[|e| - 1]);
        assert d == d[..|d| - 1] + [d[|d| - 1]] && e == e[..|e| - 1] + [e[|e| - 1]];
      } else {
        OneData(init, d, e);
      }
    }
  }

  /** Any frame at all: it is the event that its last event: line names, or a message, with the data of its data: lines
      joined by line feeds; without such a line it is no event. */
  lemma FrameReads(frame: string, name: string, data: seq<string>)
    requires SaysName(Split(frame), name) && SaysData(Split(frame), data)
    ensures FrameEvent(frame) == if data == [] then None else Some(SseEvent(name, Join(data)))
  {
    hide Split, Join, SaysName, SaysData, ReadLines;
    LinesRead(Split(frame));
    OneName(Split(frame), name, ReadLines(Split(frame)).event);
    OneData(Split(frame), data, ReadLines(Split(frame)).dataLines);
  }

  // ---------------------------------------------------------------- any text

  /** The frames, each followed by a blank line. */
  function Broken(frames: seq<string>): string {
    if frames == [] then "" else frames[0] + "\n\n" + Broken(frames[1..])
  }

  /** No blank line ends inside the frame or just after it. */
  ghost predicate OneFrame(frame: string) {
    forall i: nat :: !BlankAfter(frame, i)
  }

  /** A line feed that another one follows, or the end. */
  ghost predicate BlankAfter(frame: string, i: nat) {
    i < |frame| && frame[i] == '\n' && (i + 1 < |frame| ==> frame[i + 1] == '\n')
  }

  ghost predicate NoBlankLine(s: string) {
    forall i :: 0 <= i < |s| - 1 ==> !(s[i] == '\n' && s[i + 1] == '\n')
  }

  lemma UnbrokenIs(s: string)
    ensures Unbroken(s) <==> NoBlankLine(s)
  {
    if NoBlankLine(s) {
      forall i: nat ensures !BreakAt(s, i) {
      }
    }
    if Unbroken(s) {
      forall i | 0 <= i < |s| - 1 ensures !(s[i] == '\n' && s[i + 1] == '\n') {
        assert !BreakAt(s, i);
      }
    }
  }

  lemma FrameEndsHere(frame: string, more: string)
    requires OneFrame(frame)
    ensures FirstBreak(frame + "\n\n" + more) == |frame|
  {
    var s := frame + "\n\n" + more;
    var n := |frame|;
    assert s[n] == '\n' && s[n + 1] == '\n' && BreakAt(s, n);
    forall i: nat | i < n ensures !BreakAt(s, i) {
      assert !BlankAfter(frame, i);
      assert s[i] == frame[i] && (i + 1 < n ==> s[i + 1] == frame[i + 1]);
    }
    FirstBreakIs(s, n);
  }

  lemma FrameCutOff(frame: string, more: string)
    requires OneFrame(frame)
    ensures Cut(frame + "\n\n" + more) == Cutting([frame] + Cut(more).frames, Cut(more).rest)
  {
    hide OneFrame, FirstBreak;
    var s := frame + "\n\n" + more;
    FrameEndsHere(frame, more);
    assert s[..|frame|] == frame && s[|frame| + 2..] == more;
    hide Cut;
    CutStep(s);
  }

  /** Frames followed by blank lines are cut off one by one, and the rest is kept. */
  lemma {:induction false} CutReads(frames: seq<string>, rest: string)
    requires (forall f :: f in frames ==> OneFrame(f)) && NoBlankLine(rest)
    ensures Cut(Broken(frames) + rest) == Cutting(frames, rest)
  {
    hide OneFrame, NoBlankLine, Cut;
    if frames == [] {
      NothingCut(rest);
      assert Broken(frames) + rest == rest;
    } else {
      var f, more := frames[0], Broken(frames[1..]);
      assert f in frames;
      CutReads(frames[1..], rest);
      Assoc(f + "\n\n", more, rest);
      FrameCutOff(f, more + rest);
      assert [f] + frames[1..] == frames;
    }
  }

  lemma NothingCut(s: string)
    requires NoBlankLine(s)
    ensures Cut(s) == Cutting([], s)
  {
    UnbrokenIs(s);
    FirstBreakIs(s, |s|);
  }

  /** Every text is such frames and a rest. */
  lemma {:induction false} EveryTextHasFrames(s: string) returns (frames: seq<string>, rest: string)
    ensures s == Broken(frames) + rest && (forall f :: f in frames ==> OneFrame(f)) && NoBlankLine(rest)
    decreases |s|
  {
    var k := FirstBreak(s);
    if k == |s| {
      frames, rest := [], s;
      assert forall i: nat :: i < k ==> !BreakAt(s, i);
      UnbrokenIs(s);
      assert Broken([]) + s == s;
    } else {
      FrameBefore(s, k);
      BreakText(s, k);
      var more;
      more, rest := EveryTextHasFrames(s[k + 2..]);
      frames := [s[..k]] + more;
      hide OneFrame, NoBlankLine, FirstBreak;
      assert frames[1..] == more;
      Assoc(s[..k] + "\n\n", Broken(more), rest);
    }
  }

  lemma FrameBefore(s: string, k: nat)
    requires BreakAt(s, k) && forall i: nat :: i < k ==> !BreakAt(s, i)
    ensures OneFrame(s[..k])
  {
    var frame := s[..k];
    forall i: nat ensures !BlankAfter(frame, i) {
      if i < k {
        assert !BreakAt(s, i);
      }
    }
  }

  lemma BreakText(s: string, k: nat)
    requires BreakAt(s, k)
    ensures k + 2 <= |s| && s == s[..k] + "\n\n" + s[k + 2..]
  {
  }

  /** What a frame is, said of its lines: an event with the last name and the data, or none without data. */
  ghost predicate FrameSays(frame: string, e: Option<SseEvent>) {
    exists name, data ::
      && SaysName(Split(frame), name) && SaysData(Split(frame), data)
      && e == if data == [] then None else Some(SseEvent(name, Join(data)))
  }

  /** The events of frames, said of their lines. */
  ghost predicate FramesSay(frames: seq<string>, events: seq<SseEvent>) {
    if frames == [] then events == []
    else
      || (FrameSays(frames[0], None) && FramesSay(frames[1..], events))
      || (events != [] && FrameSays(frames[0], Some(events[0])) && FramesSay(frames[1..], events[1..]))
  }

  lemma FrameSaid(frame: string, e: Option<SseEvent>)
    requires FrameSays(frame, e)
    ensures FrameEvent(frame) == e
  {
    hide Split, Join, SaysName, SaysData, FrameEvent;
    var name, data :| SaysName(Split(frame), name) && SaysData(Split(frame), data)
                      && e == if data == [] then None else Some(SseEvent(name, Join(data)));
    FrameReads(frame, name, data);
  }

  lemma {:induction false} EventsSaid(frames: seq<string>, events: seq<SseEvent>)
    requires FramesSay(frames, events)
    ensures Events(frames) == events
  {
    if frames != [] {
      hide FrameSays, FrameEvent;
      if FrameSays(frames[0], None) && FramesSay(frames[1..], events) {
        FrameSaid(frames[0], None);
        EventsSaid(frames[1..], events);
      } else {
        FrameSaid(frames[0], Some(events[0]));
        EventsSaid(frames[1..], events[1..]);
        assert events == [events[0]] + events[1..];
      }
    }
  }

  /** Any text in any chunks: the pushes answer the events of its frames, the pieces before its blank lines read from
      the left, and keep what follows the last blank line. */
  lemma AnyTextReads(frames: seq<string>, rest: string, chunks: seq<string>, events: seq<SseEvent>)
    requires (forall f :: f in frames ==> OneFrame(f)) && NoBlankLine(rest)
    requires Concat(chunks) == Broken(frames) + rest && FramesSay(frames, events)
    ensures PushAll("", chunks) == Pushed(events, rest)
  {
    hide OneFrame, NoBlankLine, Broken, FramesSay, Cut, PushAll, Events;
    UnbrokenIs("");
    EmptyHasNoBlankLine();
    ChunksDoNotMatter("", chunks);
    CutReads(frames, rest);
    EventsSaid(frames, events);
    assert "" + Concat(chunks) == Concat(chunks);
  }

  lemma EmptyHasNoBlankLine()
    ensures NoBlankLine("")
  {
  }
}
