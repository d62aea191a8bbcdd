/** What the server prints is what the client parses. */
module SseRoundTrip {
  import opened Text
  import opened SseFrames

  /** What the stream endpoint sends: an event, or the comment that keeps the connection warm. */
  datatype Frame = EventFrame(name: string, lines: seq<string>) | KeepAlive

  function DataLines(lines: seq<string>): seq<string> {
    if lines == [] then [] else DataLines(lines[..|lines| - 1]) + ["data: " + lines[|lines| - 1]]
  }

  function FrameLines(f: Frame): seq<string> {
    match f
    case EventFrame(name, lines) => ["event: " + name] + DataLines(lines)
    case KeepAlive => [": keep-alive"]
  }

  function FrameText(f: Frame): string {
    Join(FrameLines(f)) + BREAK
  }

  function Wire(frames: seq<Frame>): string {
    if frames == [] then "" else FrameText(frames[0]) + Wire(frames[1..])
  }

  /** A JSON document printed by the server is one line; the format allows several. */
  lemma OneLineFrame(name: string, body: string)
    ensures FrameText(EventFrame(name, [body])) == "event: " + name + "\ndata: " + body + "\n\n"
  {
    var lines := ["event: " + name, "data: " + body];
    assert DataLines([body]) == ["data: " + body];
    assert FrameLines(EventFrame(name, [body])) == lines && lines[1..] == ["data: " + body];
    assert Join(lines) == "event: " + name + NL + ("data: " + body);
    assert Join(lines) + BREAK == "event: " + name + "\ndata: " + body + "\n\n";
  }

  /** Names and data lines contain no line feed, and every event has data. */
  ghost predicate Printable(f: Frame) {
    f.EventFrame? ==> NoNewline(f.name) && f.lines != [] && forall l :: l in f.lines ==> NoNewline(l)
  }

  function DropReturns(lines: seq<string>): (r: seq<string>)
    ensures |r| == |lines| && forall i :: 0 <= i < |lines| ==> r[i] == DropReturn(lines[i])
  {
    if lines == [] then [] else DropReturns(lines[..|lines| - 1]) + [DropReturn(lines[|lines| - 1])]
  }

  /** What arrives: the name trimmed, every data line without one trailing carriage return. */
  function Arrives(f: Frame): seq<SseEvent> {
    match f
    case EventFrame(name, lines) => [SseEvent(Strip(name, JsSpace), Join(DropReturns(lines)))]
    case KeepAlive => []
  }

  function AllArrive(frames: seq<Frame>): seq<SseEvent> {
    if frames == [] then [] else Arrives(frames[0]) + AllArrive(frames[1..])
  }

  // ---------------------------------------------------------------- one frame comes back

  lemma {:induction false} BlankPrefix(pre: string, s: string, ws: char -> bool)
    requires Blank(pre, ws)
    ensures LeadingBlanks(pre + s, ws) == |pre| + LeadingBlanks(s, ws)
  {
    if pre == "" {
      assert pre + s == s;
    } else {
      assert (pre + s)[0] == pre[0] && (pre + s)[1..] == pre[1..] + s;
      assert pre[0] in pre && forall c :: c in pre[1..] ==> c in pre;
      BlankPrefix(pre[1..], s, ws);
    }
  }

  lemma {:induction false} BlankSuffix(s: string, post: string, ws: char -> bool)
    requires Blank(post, ws)
    ensures TrailingBlanks(s + post, ws) == TrailingBlanks(s, ws) + |post|
  {
    if post == "" {
      assert s + post == s;
    } else {
      var n := |post| - 1;
      assert (s + post)[|s + post| - 1] == post[n] && (s + post)[..|s + post| - 1] == s + post[..n];
      assert post[n] in post && forall c :: c in post[..n] ==> c in post;
      BlankSuffix(s, post[..n], ws);
    }
  }

  /** Stripping finds the only stripped middle between blanks. */
  lemma StripPadded(pre: string, m: string, post: string, ws: char -> bool)
    requires Blank(pre, ws) && Blank(post, ws) && Stripped(m, ws)
    ensures Strip(pre + m + post, ws) == m
  {
    var s := pre + m + post;
    Assoc(pre, m, post);
    BlankPrefix(pre, m + post, ws);
    if m == "" {
      assert m + post == post && post + "" == post;
      BlankPrefix(post, "", ws);
    } else {
      assert (m + post)[0] == m[0];
      assert LStrip(s, ws) == m + post;
      BlankSuffix(m, post, ws);
      assert RStrip(m + post, ws) == m;
    }
  }

  /** Blanks added at the ends do not change what stripping leaves. */
  lemma StripIgnoresPadding(pre: string, s: string, post: string, ws: char -> bool)
    requires Blank(pre, ws) && Blank(post, ws)
    ensures Strip(pre + s + post, ws) == Strip(s, ws)
  {
    var a, b := StripEnds(s, ws);
    var m := Strip(s, ws);
    assert pre + s + post == (pre + a) + m + (b + post) by {
      Assoc(pre, a, m);
      Assoc(pre + a + m, b, post);
      Assoc(pre, a + m, b);
    }
    StripPadded(pre + a, m, b + post, ws);
  }

  lemma EventLineRead(name: string)
    ensures ReadLine(Fields("message", []), "event: " + name) == Fields(Strip(name, JsSpace), [])
  {
    var raw, n := "event: " + name, DropReturn(name);
    assert DropReturn(raw) == "event: " + n;
    assert ("event: " + n)[..6] == "event:" && ("event: " + n)[6..] == " " + n;
    hide Strip;
    var cr := name[|n|..];
    assert n + cr == name && Blank(cr, JsSpace);
    StripIgnoresPadding("", n, cr, JsSpace);
    StripIgnoresPadding(" ", n, "", JsSpace);
    assert "" + n + cr == name && " " + n + "" == " " + n;
  }

  lemma DataLineRead(fields: Fields, l: string)
    ensures ReadLine(fields, "data: " + l) == fields.(dataLines := fields.dataLines + [DropReturn(l)])
  {
    var raw, d := "data: " + l, DropReturn(l);
    assert DropReturn(raw) == "data: " + d;
    var line := "data: " + d;
    assert line[0] == 'd' && line[..5] == "data:" && line[5..] == " " + d;
    assert !StartsWith(line, "event:") by {
      assert "event:"[0] == 'e';
      assert |line| >= 6 ==> line[..6][0] == 'd';
    }
    assert (" " + d)[1..] == d;
  }

  lemma ReadLinesSnoc(lines: seq<string>, l: string)
    ensures ReadLines(lines + [l]) == ReadLine(ReadLines(lines), l)
  {
    assert (lines + [l])[..|lines|] == lines;
  }

  lemma {:induction false} DataLinesRead(first: string, lines: seq<string>)
    ensures ReadLines([first] + DataLines(lines)) ==
            var base := ReadLine(Fields("message", []), first);
            base.(dataLines := base.dataLines + DropReturns(lines))
  {
    var base := ReadLine(Fields("message", []), first);
    if lines == [] {
      ReadLinesSnoc([], first);
      assert [] + [first] == [first] && [first] + [] == [first] && base.dataLines + [] == base.dataLines;
    } else {
      var init, last := lines[..|lines| - 1], lines[|lines| - 1];
      hide ReadLine, ReadLines;
      DataLinesRead(first, init);
      ReadLinesSnoc([first] + DataLines(init), "data: " + last);
      Assoc([first], DataLines(init), ["data: " + last]);
      DataLineRead(ReadLines([first] + DataLines(init)), last);
      Assoc(base.dataLines, DropReturns(init), [DropReturn(last)]);
    }
  }

  ghost predicate CleanLine(l: string) {
    l != "" && NoNewline(l)
  }

  lemma {:induction false} DataLinesClean(lines: seq<string>)
    requires forall l :: l in lines ==> NoNewline(l)
    ensures forall l :: l in DataLines(lines) ==> CleanLine(l)
  {
    if lines != [] {
      assert lines[|lines| - 1] in lines;
      DataLinesClean(lines[..|lines| - 1]);
    }
  }

  lemma FrameLinesClean(f: Frame)
    requires Printable(f)
    ensures FrameLines(f) != [] && forall l :: l in FrameLines(f) ==> CleanLine(l)
  {
    if f.EventFrame? {
      DataLinesClean(f.lines);
    }
  }

  lemma KeepAliveRead()
    ensures ReadLines([": keep-alive"]) == Fields("message", [])
  {
    var line := ": keep-alive";
    var lines := [line];
    assert DropReturn(line) == line && line[..6][0] == ':' && line[..5][0] == ':';
    assert lines[..0] == [];
  }

  /** Parsing the printed frame. */
  lemma FrameComesBack(f: Frame)
    requires Printable(f)
    ensures FrameEvent(Join(FrameLines(f))) == if f.EventFrame? then Some(Arrives(f)[0]) else None
  {
    FrameLinesClean(f);
    SplitJoin(FrameLines(f));
    hide Split, Join, ReadLine, ReadLines, Strip;
    match f
    case EventFrame(name, lines) =>
      EventLineRead(name);
      DataLinesRead("event: " + name, lines);
      assert [] + DropReturns(lines) == DropReturns(lines);
    case KeepAlive =>
      KeepAliveRead();
  }

  // ---------------------------------------------------------------- the stream comes back

  lemma {:induction false} JoinedUnbroken(lines: seq<string>)
    requires lines != [] && forall l :: l in lines ==> CleanLine(l)
    ensures var s := Join(lines); s != "" && s[0] != '\n' && s[|s| - 1] != '\n' && Unbroken(s)
  {
    var a, s := lines[0], Join(lines);
    assert a in lines && CleanLine(a);
    forall i | 0 <= i < |a| ensures a[i] != '\n' {
      assert a[i] in a;
    }
    if |lines| > 1 {
      var rest := Join(lines[1..]);
      JoinedUnbroken(lines[1..]);
      forall i: nat ensures !BreakAt(s, i) {
        if i > |a| {
          assert BreakAt(s, i) <==> BreakAt(rest, i - |a| - 1);
        }
      }
    }
  }

  /** A printed frame is cut off exactly where it ends. */
  lemma FrameCut(f: Frame, rest: string)
    requires Printable(f)
    ensures Cut(FrameText(f) + rest) == Cutting([Join(FrameLines(f))] + Cut(rest).frames, Cut(rest).rest)
  {
    var body, s := Join(FrameLines(f)), FrameText(f) + rest;
    FrameLinesClean(f);
    JoinedUnbroken(FrameLines(f));
    Assoc(body, BREAK, rest);
    forall i: nat | i < |body| ensures !BreakAt(s, i) {
      assert i + 1 < |body| ==> !BreakAt(body, i);
    }
    FirstBreakIs(s, |body|);
    assert s[..|body|] == body && s[|body| + 2..] == rest;
  }

  lemma NothingToCut()
    ensures Cut("") == Cutting([], "")
  {
  }

  lemma {:induction false} WireComesBack(frames: seq<Frame>)
    requires forall f :: f in frames ==> Printable(f)
    ensures Cut(Wire(frames)).rest == "" && Events(Cut(Wire(frames)).frames) == AllArrive(frames)
  {
    hide Cut, Join, Strip, FrameEvent, FrameText, FrameLines, Events, DropReturns;
    if frames == [] {
      NothingToCut();
      NoFramesNoEvents();
    } else {
      assert frames[0] in frames;
      WireComesBack(frames[1..]);
      FrameCut(frames[0], Wire(frames[1..]));
      FrameComesBack(frames[0]);
      EventsCons(Join(FrameLines(frames[0])), Cut(Wire(frames[1..])).frames);
    }
  }

  /** Print, cut anywhere, parse: the client gets every event in order, whatever comments are in between,
      with nothing left over, and the flush at the end of the stream adds nothing. */
  lemma PrintedStreamComesBack(frames: seq<Frame>, chunks: seq<string>)
    requires forall f :: f in frames ==> Printable(f)
    requires Concat(chunks) == Wire(frames)
    ensures PushAll("", chunks) == Pushed(AllArrive(frames), "")
    ensures FlushText(PushAll("", chunks).buffer) == []
  {
    ChunksDoNotMatter("", chunks);
    assert "" + Wire(frames) == Wire(frames);
    WireComesBack(frames);
  }

  // ---------------------------------------------------------------- a stream cut short

  lemma RStripPadded(s: string, post: string, ws: char -> bool)
    requires s != "" && !ws(s[|s| - 1]) && Blank(post, ws)
    ensures RStrip(s + post, ws) == s
  {
    BlankSuffix(s, post, ws);
  }

  lemma RStripParts(s: string, ws: char -> bool) returns (post: string)
    ensures s == RStrip(s, ws) + post && Blank(post, ws)
    ensures RStrip(s, ws) != "" ==> !ws(RStrip(s, ws)[|RStrip(s, ws)| - 1])
  {
    TrailingBlanksBlank(s, ws);
    post := s[|RStrip(s, ws)|..];
  }

  /** Right-stripping a text whose last part is not blank only touches that part. */
  lemma RStripLastPart(front: string, last: string, ws: char -> bool)
    requires RStrip(last, ws) != ""
    ensures RStrip(front + last, ws) == front + RStrip(last, ws)
  {
    var post := RStripParts(last, ws);
    var m := RStrip(last, ws);
    Assoc(front, m, post);
    RStripPadded(front + m, post, ws);
  }

  function TrimmedDataLine(l: string): string {
    var m := RStrip(l, JsSpace);
    if m == "" then "data:" else "data: " + m
  }

  /** The last data line of a frame, as the final trim leaves it. */
  lemma DataLineTrimmed(l: string)
    ensures RStrip("data: " + l, JsSpace) == TrimmedDataLine(l)
  {
    var post := RStripParts(l, JsSpace);
    var m := RStrip(l, JsSpace);
    hide RStrip;
    if m == "" {
      assert "data: " + l == "data:" + (" " + post);
      RStripPadded("data:", " " + post, JsSpace);
    } else {
      Assoc("data: ", m, post);
      RStripPadded("data: " + m, post, JsSpace);
    }
  }

  lemma TrimmedDataLineRead(fields: Fields, l: string)
    ensures ReadLine(fields, TrimmedDataLine(l)) == fields.(dataLines := fields.dataLines + [RStrip(l, JsSpace)])
  {
    var m, line := RStrip(l, JsSpace), TrimmedDataLine(l);
    TrailingBlanksBlank(l, JsSpace);
    if m == "" {
      assert line[..5] == "data:" && DropReturn(line) == line;
    } else {
      assert m[|m| - 1] == l[|m| - 1] && line[|line| - 1] == m[|m| - 1];
      assert DropReturn(line) == line && DropReturn(m) == m;
      DataLineRead(fields, m);
    }
  }

  /** The stream ends without the final blank line: the last event still comes, from the flush; only blanks
      at the end of its last data line are lost. */
  lemma CutShortStreamComesBack(frames: seq<Frame>, name: string, lines: seq<string>, chunks: seq<string>)
    requires forall f :: f in frames ==> Printable(f)
    requires Printable(EventFrame(name, lines))
    requires Concat(chunks) == Wire(frames) + Join(FrameLines(EventFrame(name, lines)))
    ensures var n := |lines| - 1;
            var pushed := PushAll("", chunks);
            pushed.events + FlushText(pushed.buffer) == AllArrive(frames)
              + [SseEvent(Strip(name, JsSpace), Join(DropReturns(lines[..n]) + [RStrip(lines[n], JsSpace)]))]
  {
    var f := EventFrame(name, lines);
    var body := Join(FrameLines(f));
    ChunksDoNotMatter("", chunks);
    assert "" + (Wire(frames) + body) == Wire(frames) + body;
    WireComesBack(frames);
    CutAppend(Wire(frames), body);
    assert "" + body == body;
    FrameLinesClean(f);
    JoinedUnbroken(FrameLines(f));
    FirstBreakIs(body, |body|);
    assert Cut(body) == Cutting([], body);
    var cut := Cut(Wire(frames) + body);
    assert cut == Cutting(Cut(Wire(frames)).frames + [], body);
    assert Cut(Wire(frames)).frames + [] == Cut(Wire(frames)).frames;
    FlushedFrame(name, lines);
  }

  lemma TrimmedLinesClean(front: seq<string>, l: string)
    requires forall x :: x in front + ["data: " + l] ==> CleanLine(x)
    ensures forall x :: x in front + [TrimmedDataLine(l)] ==> NoNewline(x)
  {
    var last, line := "data: " + l, TrimmedDataLine(l);
    assert last in front + [last] && CleanLine(last);
    assert line <= last;
    forall x | x in front ensures NoNewline(x) {
      assert x in front + [last] && CleanLine(x);
    }
  }

  /** A frame starts with a letter, so trimming only works on its last line. */
  lemma FrameTrimmed(name: string, front: seq<string>, l: string)
    requires front != [] && front[0] == "event: " + name
    ensures var frame := Join(front + [TrimmedDataLine(l)]);
            Strip(Join(front + ["data: " + l]), JsSpace) == frame && frame != ""
  {
    hide Join, RStrip, TrimmedDataLine, LStrip;
    var last, line := "data: " + l, TrimmedDataLine(l);
    DataLineTrimmed(l);
    TrimmedDataLineNonempty(l);
    JoinConcat(front, [last]);
    JoinConcat(front, [line]);
    JoinOne(last);
    JoinOne(line);
    var head, body := Join(front), Join(front + [last]);
    RStripLastPart(head + NL, last, JsSpace);
    JoinEnds(front);
    assert head[..|front[0]|][0] == front[0][0] == 'e' == body[0];
    LetterStays(body);
  }

  lemma JoinOne(l: string)
    ensures Join([l]) == l
  {
  }

  lemma TrimmedDataLineNonempty(l: string)
    ensures TrimmedDataLine(l) != ""
  {
  }

  lemma LetterStays(body: string)
    requires body != "" && !JsSpace(body[0])
    ensures LStrip(body, JsSpace) == body
  {
  }

  lemma FlushedFrame(name: string, lines: seq<string>)
    requires Printable(EventFrame(name, lines))
    ensures var n := |lines| - 1;
            FlushText(Join(FrameLines(EventFrame(name, lines)))) ==
              [SseEvent(Strip(name, JsSpace), Join(DropReturns(lines[..n]) + [RStrip(lines[n], JsSpace)]))]
  {
    var n, first := |lines| - 1, "event: " + name;
    var front := [first] + DataLines(lines[..n]);
    var line := TrimmedDataLine(lines[n]);
    assert FrameLines(EventFrame(name, lines)) == front + ["data: " + lines[n]];
    FrameLinesClean(EventFrame(name, lines));
    FrameTrimmed(name, front, lines[n]);
    TrimmedLinesClean(front, lines[n]);
    SplitJoin(front + [line]);
    TrimmedDataLineRead(ReadLines(front), lines[n]);
    DataLinesRead(first, lines[..n]);
    EventLineRead(name);
    hide Split, RStrip, Strip, ReadLine, Join, TrimmedDataLine, DataLines, DropReturns;
    assert (front + [line])[..|front|] == front;
    assert [] + DropReturns(lines[..n]) == DropReturns(lines[..n]);
  }

  // ---------------------------------------------------------------- when it is the same event

  /** The event as it was meant. */
  function Meant(f: Frame): seq<SseEvent> {
    match f
    case EventFrame(name, lines) => [SseEvent(name, Join(lines))]
    case KeepAlive => []
  }

  /** An event arrives unchanged exactly when its name has no blank ends and no data line ends in a
      carriage return. */
  lemma ArrivesUnchangedIff(f: Frame)
    requires Printable(f)
    ensures Arrives(f) == Meant(f)
            <==> (f.EventFrame? ==> Stripped(f.name, JsSpace) && forall l :: l in f.lines ==> DropReturn(l) == l)
  {
    if f.EventFrame? {
      NameUnchangedIff(f.name);
      DataUnchangedIff(f.lines);
    }
  }

  lemma NameUnchangedIff(name: string)
    ensures Strip(name, JsSpace) == name <==> Stripped(name, JsSpace)
  {
    if Stripped(name, JsSpace) {
      StripStripped(name, JsSpace);
    } else {
      var pre, post := StripEnds(name, JsSpace);
    }
  }

  lemma DataUnchangedIff(lines: seq<string>)
    requires lines != [] && forall l :: l in lines ==> NoNewline(l)
    ensures Join(DropReturns(lines)) == Join(lines) <==> forall l :: l in lines ==> DropReturn(l) == l
  {
    var kept := DropReturns(lines);
    KeptClean(lines);
    SplitJoin(kept);
    SplitJoin(lines);
    hide Join, Split, DropReturn;
    if Join(kept) == Join(lines) {
      assert kept == lines;
    }
    if forall l :: l in lines ==> DropReturn(l) == l {
      forall i | 0 <= i < |kept| ensures kept[i] == lines[i] {
        assert lines[i] in lines;
      }
      assert kept == lines;
    }
  }

  lemma KeptClean(lines: seq<string>)
    requires lines != [] && forall l :: l in lines ==> NoNewline(l)
    ensures DropReturns(lines) != [] && forall l :: l in DropReturns(lines) ==> NoNewline(l)
  {
    var kept := DropReturns(lines);
    forall l | l in kept ensures NoNewline(l) {
      var i :| 0 <= i < |kept| && kept[i] == l;
      assert lines[i] in lines && l <= lines[i];
    }
  }
}
