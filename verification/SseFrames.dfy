/** The event-stream wire format (sections 9.2.5 and 9.2.6 of the WHATWG HTML Standard, line feeds only):
    the server's frames, and the client's incremental parser. */
module SseFrames {
  import opened Text

  /** An event as the parser hands it on; data is the text that is then decoded as JSON. */
  datatype SseEvent = SseEvent(event: string, data: string)

  const BREAK: string := "\n\n"

  // ---------------------------------------------------------------- one frame

  function DropReturn(line: string): string {
    if line != "" && line[|line| - 1] == '\r' then line[..|line| - 1] else line
  }

  function DropSpace(s: string): string {
    if s != "" && s[0] == ' ' then s[1..] else s
  }

  datatype Fields = Fields(event: string, dataLines: seq<string>)

  /** One line: event: replaces the name, data: adds a line, anything else is ignored. */
  function ReadLine(fields: Fields, raw: string): Fields {
    var line := DropReturn(raw);
    if StartsWith(line, "event:") then fields.(event := Strip(line[6..], JsSpace))
    else if StartsWith(line, "data:") then fields.(dataLines := fields.dataLines + [DropSpace(line[5..])])
    else fields
  }

  function ReadLines(lines: seq<string>): Fields {
    if lines == [] then Fields("message", [])
    else ReadLine(ReadLines(lines[..|lines| - 1]), lines[|lines| - 1])
  }

  /** A frame without a data line carries no event. */
  function FrameEvent(frame: string): Option<SseEvent> {
    var fields := ReadLines(Split(frame));
    if fields.dataLines == [] then None else Some(SseEvent(fields.event, Join(fields.dataLines)))
  }

  method ParseFrame(frame: string) returns (parsed: Option<SseEvent>)
    ensures parsed == FrameEvent(frame)
  {
    hide Split, Strip, Join, DropSpace;
    var event := "message";
    var dataLines: seq<string> := [];
    var lines := Split(frame);
    for i := 0 to |lines|
      invariant ReadLines(lines[..i]) == Fields(event, dataLines)
    {
      assert lines[..i + 1][..i] == lines[..i];
      var raw := lines[i];
      var line := DropReturn(raw);
      if StartsWith(line, "event:") {
        event := Strip(line[6..], JsSpace);
      } else if StartsWith(line, "data:") {
        dataLines := dataLines + [DropSpace(line[5..])];
      }
    }
    assert lines[..|lines|] == lines;
    parsed := if dataLines == [] then None else Some(SseEvent(event, Join(dataLines)));
  }

  // ---------------------------------------------------------------- cutting the text into frames

  ghost predicate BreakAt(s: string, i: nat) {
    i + 1 < |s| && s[i] == '\n' && s[i + 1] == '\n'
  }

  ghost predicate Unbroken(s: string) {
    forall i: nat :: !BreakAt(s, i)
  }

  /** Where the first blank line starts, or the length of the text. */
  function FirstBreak(s: string): (k: nat)
    ensures k <= |s| && (k < |s| ==> BreakAt(s, k))
    ensures forall i: nat :: i < k ==> !BreakAt(s, i)
  {
    if |s| < 2 then |s|
    else if s[0] == '\n' && s[1] == '\n' then 0
    else
      var k := FirstBreak(s[1..]);
      assert forall i: nat :: 0 < i ==> (BreakAt(s, i) <==> BreakAt(s[1..], i - 1));
      k + 1
  }

  lemma FirstBreakIs(s: string, k: nat)
    requires k <= |s| && (k < |s| ==> BreakAt(s, k)) && forall i: nat :: i < k ==> !BreakAt(s, i)
    ensures FirstBreak(s) == k
  {
    var m := FirstBreak(s);
    if k < |s| {
      assert BreakAt(s, k) && m <= k;
    }
  }

  /** The complete frames of a text, and what is left after the last blank line. */
  datatype Cutting = Cutting(frames: seq<string>, rest: string)

  function Cut(s: string): (c: Cutting)
    ensures Unbroken(c.rest) && |c.rest| <= |s|
    decreases |s|
  {
    var k := FirstBreak(s);
    if k == |s| then Cutting([], s)
    else
      var c := Cut(s[k + 2..]);
      Cutting([s[..k]] + c.frames, c.rest)
  }

  /** The events of one frame: one or none. */
  function FrameEvents(frame: string): seq<SseEvent> {
    match FrameEvent(frame)
    case None => []
    case Some(e) => [e]
  }

  function Events(frames: seq<string>): seq<SseEvent> {
    if frames == [] then [] else FrameEvents(frames[0]) + Events(frames[1..])
  }

  lemma EventsCons(frame: string, more: seq<string>)
    ensures Events([frame] + more) == FrameEvents(frame) + Events(more)
  {
    hide FrameEvents;
    assert ([frame] + more)[1..] == more;
  }

  lemma {:induction false} EventsConcat(a: seq<string>, b: seq<string>)
    ensures Events(a + b) == Events(a) + Events(b)
  {
    hide FrameEvents;
    if a == [] {
      assert a + b == b;
    } else {
      assert (a + b)[1..] == a[1..] + b && (a + b)[0] == a[0];
      EventsConcat(a[1..], b);
      Assoc(FrameEvents(a[0]), Events(a[1..]), Events(b));
    }
  }

  lemma EventsSnoc(frames: seq<string>, frame: string)
    ensures Events(frames + [frame]) == Events(frames) + FrameEvents(frame)
  {
    hide FrameEvents;
    EventsConcat(frames, [frame]);
    EventsCons(frame, []);
    assert [frame] + [] == [frame] && FrameEvents(frame) + [] == FrameEvents(frame);
  }

  /** One frame cut off. */
  lemma CutStep(s: string)
    requires FirstBreak(s) < |s|
    ensures var k := FirstBreak(s); Cut(s) == Cutting([s[..k]] + Cut(s[k + 2..]).frames, Cut(s[k + 2..]).rest)
  {
  }

  lemma FirstBreakAppend(a: string, b: string)
    requires FirstBreak(a) < |a|
    ensures var k := FirstBreak(a);
            FirstBreak(a + b) == k && (a + b)[..k] == a[..k] && (a + b)[k + 2..] == a[k + 2..] + b
  {
    var k := FirstBreak(a);
    assert BreakAt(a, k);
    forall i: nat | i <= k ensures BreakAt(a + b, i) <==> BreakAt(a, i) {
    }
    FirstBreakIs(a + b, k);
  }

  /** Cutting a text that arrives in two pieces. */
  lemma {:induction false} CutAppend(a: string, b: string)
    ensures Cut(a + b) == Cutting(Cut(a).frames + Cut(Cut(a).rest + b).frames, Cut(Cut(a).rest + b).rest)
    decreases |a|
  {
    var k := FirstBreak(a);
    if k == |a| {
      assert Cut(a) == Cutting([], a);
      assert [] + Cut(a + b).frames == Cut(a + b).frames;
    } else {
      var tail := a[k + 2..];
      assert k + 2 <= |a| by {
        assert BreakAt(a, k);
      }
      CutStep(a);
      FirstBreakAppend(a, b);
      CutStep(a + b);
      hide Cut, FirstBreak;
      CutAppend(tail, b);
      Assoc([a[..k]], Cut(tail).frames, Cut(Cut(tail).rest + b).frames);
    }
  }

  // ---------------------------------------------------------------- the incremental parser

  /** What one push answers, and the buffer it leaves. */
  datatype Pushed = Pushed(events: seq<SseEvent>, buffer: string)

  function PushText(buffer: string, chunk: string): Pushed {
    var c := Cut(buffer + chunk);
    Pushed(Events(c.frames), c.rest)
  }

  function Concat(chunks: seq<string>): string {
    if chunks == [] then "" else chunks[0] + Concat(chunks[1..])
  }

  /** Push the chunks one after the other. */
  function PushAll(buffer: string, chunks: seq<string>): Pushed
    decreases |chunks|
  {
    if chunks == [] then Pushed([], buffer)
    else
      var first := PushText(buffer, chunks[0]);
      var more := PushAll(first.buffer, chunks[1..]);
      Pushed(first.events + more.events, more.buffer)
  }

  /** However a text is cut into chunks, even inside a blank line, the events and the final buffer are
      those of one push of the whole text, and the buffer holds no complete separator. */
  lemma {:induction false} ChunksDoNotMatter(buffer: string, chunks: seq<string>)
    requires Unbroken(buffer)
    ensures PushAll(buffer, chunks) == PushText(buffer, Concat(chunks))
    ensures Unbroken(PushAll(buffer, chunks).buffer)
    decreases |chunks|
  {
    if chunks == [] {
      assert buffer + "" == buffer;
      FirstBreakIs(buffer, |buffer|);
    } else {
      var head, tail := chunks[0], Concat(chunks[1..]);
      var first := Cut(buffer + head);
      ChunksDoNotMatter(first.rest, chunks[1..]);
      Assoc(buffer, head, tail);
      CutAppend(buffer + head, tail);
      EventsConcat(first.frames, Cut(first.rest + tail).frames);
    }
  }

  /** What flush makes of the text left in the buffer. */
  function FlushText(buffer: string): seq<SseEvent> {
    var frame := Strip(buffer, JsSpace);
    if frame == "" then [] else FrameEvents(frame)
  }

  lemma NoFramesNoEvents()
    ensures Events([]) == []
  {
  }

  lemma BreakFits(s: string)
    ensures FirstBreak(s) < |s| ==> FirstBreak(s) + 2 <= |s|
  {
    assert FirstBreak(s) < |s| ==> BreakAt(s, FirstBreak(s));
  }

  class SseFrameParser {
    var buffer: string

    constructor ()
      ensures buffer == ""
    {
      buffer := "";
    }

    method Push(chunk: string) returns (events: seq<SseEvent>)
      modifies this
      ensures Pushed(events, buffer) == PushText(old(buffer), chunk)
      ensures Unbroken(buffer)
    {
      hide FrameEvent, Events, BreakAt, Unbroken;
      ghost var text := buffer + chunk;
      buffer := buffer + chunk;
      NoFramesNoEvents();
      events := [];
      var sep := FirstBreak(buffer);
      ghost var done: seq<string> := [];
      assert [] + Cut(buffer).frames == Cut(buffer).frames;
      while sep < |buffer|
        invariant sep == FirstBreak(buffer)
        invariant Cut(text) == Cutting(done + Cut(buffer).frames, Cut(buffer).rest)
        invariant events == Events(done)
        decreases |buffer|
      {
        CutStep(buffer);
        BreakFits(buffer);
        var frame := buffer[..sep];
        Assoc(done, [frame], Cut(buffer[sep + 2..]).frames);
        buffer := buffer[sep + 2..];
        var parsed := ParseFrame(frame);
        EventsSnoc(done, frame);
        done := done + [frame];
        events := events + if parsed.Some? then [parsed.value] else [];
        sep := FirstBreak(buffer);
      }
      assert Cut(buffer) == Cutting([], buffer) && done + [] == done;
    }

    method Flush() returns (events: seq<SseEvent>)
      modifies this
      ensures buffer == "" && events == FlushText(old(buffer))
    {
      var frame := Strip(buffer, JsSpace);
      buffer := "";
      if frame == "" {
        return [];
      }
      var parsed := ParseFrame(frame);
      events := if parsed.Some? then [parsed.value] else [];
    }
  }
}
