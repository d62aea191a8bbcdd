/** The orchestrator's ledger through either publisher, over the wire, and out of the client's parser. */
module LedgerDelivery {
  import opened TaskEvents
  import opened TaskRun
  import opened TaskRunTheorems
  import opened SseDelivery
  import opened Text
  import opened SseFrames
  import opened SseRoundTrip

  /** Whatever a task run does (success, failure, cancel, refusal), every subscription of either publisher
      that has ended has received its ledger, whole and in order; one that has not ended has received a
      prefix of it and has something more to read. */
  lemma EverySubscriberGetsTheLedger(w: World, steps: seq<Step>, id: SubId, stream: seq<StreamStep>, reader: SubId)
    requires id in RunHub(steps).subs && reader in RunStreams(stream).readers
    requires Published(steps, RunHub(steps).subs[id].task) == Execute(w).ledger
    requires Appended(stream, RunStreams(stream).readers[reader].task) == Execute(w).ledger
    ensures var sub := RunHub(steps).subs[id];
            && sub.yielded <= Execute(w).ledger
            && (sub.phase == Finished ==> sub.yielded == Execute(w).ledger)
            && (sub.phase == Reading ==> sub.queue != [])
    ensures var r := RunStreams(stream).readers[reader];
            && r.yielded <= Execute(w).ledger
            && (r.phase == Finished ==> r.yielded == Execute(w).ledger)
            && (r.phase == Reading ==> r.batch != [] || r.cursor < |Execute(w).ledger|)
  {
    LedgerAlwaysShaped(w);
    hide Execute, RunHub, RunStreams, Published, Appended;
    ShapedLedgerDeliveredWhole(steps, id, stream, reader);
    ShapedLogEndsAtItsTerminal(Execute(w).ledger);
    YieldedIsAPrefix(steps, id);
    StreamReaderStopsAtFirstTerminal(stream, reader);
    if RunHub(steps).subs[id].phase == Reading {
      ReaderNeverStuck(steps, id);
    }
  }

  // ---------------------------------------------------------------- to the browser

  function EventName(e: TaskEvent): string {
    match e
    case Started => "task.started"
    case BudgetWarning => "task.budget_warning"
    case DelegationStarted(_) => "task.delegation_started"
    case DelegationCompleted(_, _, _) => "task.delegation_completed"
    case StepCompleted(_, _) => "task.step_completed"
    case Completed(_) => "task.completed"
    case Cancelled(_) => "task.cancelled"
    case Failed(_, _) => "task.failed"
  }

  /** The payload as JSON text; the encoder writes neither line feeds nor carriage returns. */
  ghost predicate OneLiner(body: TaskEvent -> string) {
    forall e :: NoNewline(body(e)) && DropReturn(body(e)) == body(e)
  }

  function Printed(events: seq<TaskEvent>, body: TaskEvent -> string): (frames: seq<Frame>)
    ensures |frames| == |events|
  {
    if events == [] then [] else [EventFrame(EventName(events[0]), [body(events[0])])] + Printed(events[1..], body)
  }

  /** The frames other than keep-alive comments. */
  function WithoutComments(frames: seq<Frame>): seq<Frame> {
    if frames == [] then []
    else if frames[0].KeepAlive? then WithoutComments(frames[1..])
    else [frames[0]] + WithoutComments(frames[1..])
  }

  function AsReceived(events: seq<TaskEvent>, body: TaskEvent -> string): (r: seq<SseEvent>)
    ensures |r| == |events|
    ensures forall i :: 0 <= i < |r| ==> r[i] == SseEvent(EventName(events[i]), body(events[i]))
  {
    if events == [] then [] else [SseEvent(EventName(events[0]), body(events[0]))] + AsReceived(events[1..], body)
  }

  lemma NameEnds(e: TaskEvent)
    ensures var name := EventName(e); name != "" && name[0] == 't' && name[|name| - 1] in {'d', 'g'} && NoNewline(name)
  {
  }

  lemma NamesPrintable(e: TaskEvent)
    ensures NoNewline(EventName(e)) && Strip(EventName(e), JsSpace) == EventName(e)
  {
    var name := EventName(e);
    NameEnds(e);
    hide EventName;
    assert !JsSpace('t') && !JsSpace('d') && !JsSpace('g');
    StripStripped(name, JsSpace);
  }

  lemma {:induction false} PrintedArrives(events: seq<TaskEvent>, body: TaskEvent -> string, frames: seq<Frame>)
    requires OneLiner(body) && WithoutComments(frames) == Printed(events, body)
    ensures forall f :: f in frames ==> Printable(f)
    ensures AllArrive(frames) == AsReceived(events, body)
    decreases |frames|
  {
    if frames != [] {
      if frames[0].KeepAlive? {
        PrintedArrives(events, body, frames[1..]);
        assert [] + AllArrive(frames[1..]) == AllArrive(frames[1..]);
      } else {
        var e, f := events[0], frames[0];
        assert f == Printed(events, body)[0] == EventFrame(EventName(e), [body(e)]);
        assert WithoutComments(frames[1..]) == WithoutComments(frames)[1..] == Printed(events[1..], body);
        PrintedArrives(events[1..], body, frames[1..]);
        NamesPrintable(e);
        OneBodyArrives(EventName(e), body(e));
      }
    }
  }

  lemma OneBodyArrives(name: string, text: string)
    requires NoNewline(name) && Strip(name, JsSpace) == name && NoNewline(text) && DropReturn(text) == text
    ensures Printable(EventFrame(name, [text])) && Arrives(EventFrame(name, [text])) == [SseEvent(name, text)]
  {
    hide Strip;
    var lines := [text];
    assert lines[..0] == [] && Join(lines) == text;
    assert DropReturns(lines) == lines;
  }

  predicate TerminalName(name: string) {
    name == "task.completed" || name == "task.cancelled" || name == "task.failed"
  }

  /** Everything the client's parser hands on for a stream that arrives in these chunks. */
  function ClientEvents(chunks: seq<string>): seq<SseEvent> {
    var seen := PushAll("", chunks);
    seen.events + FlushText(seen.buffer)
  }

  lemma PrintedLedgerComesBack(log: seq<TaskEvent>, body: TaskEvent -> string, frames: seq<Frame>, chunks: seq<string>)
    requires OneLiner(body) && WithoutComments(frames) == Printed(log, body) && Concat(chunks) == Wire(frames)
    ensures ClientEvents(chunks) == AsReceived(log, body)
  {
    PrintedArrives(log, body, frames);
    PrintedStreamComesBack(frames, chunks);
    hide PushAll, FlushText, AllArrive, Printed, WithoutComments, OneLiner, Wire, Concat, AsReceived;
    assert AllArrive(frames) + [] == AllArrive(frames);
  }

  lemma ShapedLedgerOnScreen(log: seq<TaskEvent>, body: TaskEvent -> string)
    requires LedgerShape(log)
    ensures var events := AsReceived(log, body);
            && events != [] && events[0].event == "task.started"
            && forall i :: 0 <= i < |events| ==> (TerminalName(events[i].event) <==> i == |events| - 1)
  {
    var events := AsReceived(log, body);
    forall i | 0 <= i < |events| ensures TerminalName(events[i].event) <==> IsTerminal(log[i]) {
      TerminalNames(log[i]);
      assert events[i].event == EventName(log[i]);
    }
  }

  lemma TerminalNames(e: TaskEvent)
    ensures TerminalName(EventName(e)) <==> IsTerminal(e)
  {
  }

  /** From the run to the screen: a subscriber that has ended is printed, with comments anywhere between
      its events, and the text reaches the client cut anywhere.  The client's parser hands on exactly the
      run's ledger: started first, one terminal event, and that one last. */
  lemma ClientSeesTheLedger(w: World, steps: seq<Step>, id: SubId, body: TaskEvent -> string,
                            frames: seq<Frame>, chunks: seq<string>)
    requires OneLiner(body)
    requires id in RunHub(steps).subs && RunHub(steps).subs[id].phase == Finished
    requires Published(steps, RunHub(steps).subs[id].task) == Execute(w).ledger
    requires WithoutComments(frames) == Printed(RunHub(steps).subs[id].yielded, body)
    requires Concat(chunks) == Wire(frames)
    ensures var events := ClientEvents(chunks);
            && events == AsReceived(Execute(w).ledger, body)
            && events != [] && events[0].event == "task.started"
            && forall i :: 0 <= i < |events| ==> (TerminalName(events[i].event) <==> i == |events| - 1)
  {
    hide RunHub, Published, ClientEvents, AsReceived, WithoutComments, Printed, Wire, Concat, Execute, LedgerShape;
    LedgerAlwaysShaped(w);
    FinishedGotTheLedger(w, steps, id);
    PrintedLedgerComesBack(Execute(w).ledger, body, frames, chunks);
    ShapedLedgerOnScreen(Execute(w).ledger, body);
  }

  lemma FinishedGotTheLedger(w: World, steps: seq<Step>, id: SubId)
    requires id in RunHub(steps).subs && RunHub(steps).subs[id].phase == Finished
    requires Published(steps, RunHub(steps).subs[id].task) == Execute(w).ledger
    ensures RunHub(steps).subs[id].yielded == Execute(w).ledger
  {
    LedgerAlwaysShaped(w);
    hide Execute, RunHub, Published;
    FinishedAtTheCut(steps, id);
    ShapedLogEndsAtItsTerminal(Execute(w).ledger);
  }
}
