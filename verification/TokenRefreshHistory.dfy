/** What the responses alone say about the silent refresh: which calls are sent again and when a refresh starts, read
    off the steps of the run. */
module TokenRefreshHistory {
  import opened Text
  import opened TokenRefresh

  predicate Starts(step: Step, id: CallId) {
    step.Start? && step.call == id
  }

  predicate Answers(step: Step, id: CallId) {
    step.Respond? && step.call == id
  }

  /** Step i is the one that starts the call. */
  ghost predicate StartedAt(steps: seq<Step>, id: CallId, i: nat) {
    i < |steps| && Starts(steps[i], id) && forall k :: 0 <= k < i ==> !Starts(steps[k], id)
  }

  /** Step j is the first response after step i. */
  ghost predicate FirstReplyAt(steps: seq<Step>, id: CallId, i: nat, j: nat) {
    i < j < |steps| && Answers(steps[j], id) && forall k :: i < k < j ==> !Answers(steps[k], id)
  }

  /** Step j is the 401 that answers the first request of a call that needs a session. */
  ghost predicate Refused(steps: seq<Step>, id: CallId, i: nat, j: nat) {
    StartedAt(steps, id, i) && FirstReplyAt(steps, id, i, j) && steps[i].required && steps[j].reply == Unauthorized
  }

  ghost predicate IsRefusal(steps: seq<Step>, j: nat) {
    j < |steps| && steps[j].Respond? && exists i :: Refused(steps, steps[j].call, i, j)
  }

  ghost function Refusals(steps: seq<Step>): set<nat> {
    set j: nat | j < |steps| && IsRefusal(steps, j)
  }

  // ---------------------------------------------------------------- one call, read off the steps

  /** Before its first response. */
  ghost predicate Unanswered(steps: seq<Step>, id: CallId, i: nat) {
    forall k :: i < k < |steps| ==> !Answers(steps[k], id)
  }

  /** What the steps say of a call started at step i with this access token stored. */
  ghost predicate CallTold(steps: seq<Step>, id: CallId, i: nat, access: Option<Token>, call: Call) {
    && i < |steps| && StartedAt(steps, id, i) && call.required == steps[i].required
    && 1 <= |call.requests| <= 2 && call.requests[0] == (if steps[i].required then access else None)
    && (call.phase.Sent? <==> Unanswered(steps, id, i))
    && (|call.requests| == 2 || call.phase.Awaiting? || call.phase.Resent? ==> exists j :: Refused(steps, id, i, j))
  }

  lemma StartedLater(steps: seq<Step>, last: Step, id: CallId, i: nat)
    requires StartedAt(steps, id, i)
    ensures StartedAt(steps + [last], id, i)
  {
    assert (steps + [last])[i] == steps[i];
    forall k | 0 <= k < i ensures !Starts((steps + [last])[k], id) {
      assert (steps + [last])[k] == steps[k];
    }
  }

  lemma ReplyLater(steps: seq<Step>, last: Step, id: CallId, i: nat, j: nat)
    requires FirstReplyAt(steps, id, i, j)
    ensures FirstReplyAt(steps + [last], id, i, j)
  {
    assert (steps + [last])[j] == steps[j];
    forall k | i < k < j ensures !Answers((steps + [last])[k], id) {
      assert (steps + [last])[k] == steps[k];
    }
  }

  lemma RefusedLater(steps: seq<Step>, last: Step, id: CallId, i: nat, j: nat)
    requires Refused(steps, id, i, j)
    ensures Refused(steps + [last], id, i, j)
  {
    StartedLater(steps, last, id, i);
    ReplyLater(steps, last, id, i, j);
    assert (steps + [last])[i] == steps[i] && (steps + [last])[j] == steps[j];
  }

  lemma UnansweredLater(steps: seq<Step>, last: Step, id: CallId, i: nat)
    requires i < |steps|
    ensures Unanswered(steps + [last], id, i) <==> Unanswered(steps, id, i) && !Answers(last, id)
  {
    var more := steps + [last];
    assert more[|steps|] == last;
    if Unanswered(more, id, i) {
      forall k | i < k < |steps| ensures !Answers(steps[k], id) {
        assert more[k] == steps[k];
      }
    }
  }

  lemma FirstReplyNow(steps: seq<Step>, last: Step, id: CallId, i: nat)
    requires i < |steps| && Unanswered(steps, id, i) && Answers(last, id)
    ensures FirstReplyAt(steps + [last], id, i, |steps|)
  {
    var more := steps + [last];
    assert more[|steps|] == last;
    forall k | i < k < |steps| ensures !Answers(more[k], id) {
      assert more[k] == steps[k];
    }
  }

  /** What one step does to one call. */
  ghost predicate CallMoves(c: Client, step: Step, id: CallId, call: Call, call': Call) {
    && call'.required == call.required
    && match call.phase
       case Sent =>
         if !Answers(step, id) then call' == call
         else if call.required && step.reply == Unauthorized
             then call'.phase.Awaiting? && call'.requests == call.requests
         else call'.phase == Ended && call'.requests == call.requests
       case Awaiting(_) =>
         || call' == call
         || (step == Resume(id) && call'.phase == Ended && call'.requests == call.requests)
         || (step == Resume(id) && call'.phase == Resent && call'.requests == call.requests + [c.store.access])
       case Resent => call' == call || (call'.phase == Ended && call'.requests == call.requests)
       case Ended => call' == call
  }

  lemma NextMovesCall(c: Client, step: Step, id: CallId)
    requires id in c.calls
    ensures id in Next(c, step).calls && CallMoves(c, step, id, c.calls[id], Next(c, step).calls[id])
  {
    hide OnResponse, OnResume;
    match step
    case Respond(x, reply) =>
      if HasPhase(c, x, Sent) || HasPhase(c, x, Resent) { ResponseMovesCall(c, x, reply, id); }
    case Resume(x) =>
      if x in c.calls && c.calls[x].phase.Awaiting? && c.calls[x].phase.flight < |c.flights|
         && c.flights[c.calls[x].phase.flight].Done? { ResumeMovesCall(c, x, id); }
    case _ =>
  }

  lemma ResponseMovesCall(c: Client, x: CallId, reply: Reply, id: CallId)
    requires id in c.calls && x in c.calls && (c.calls[x].phase == Sent || c.calls[x].phase == Resent)
    ensures var d := OnResponse(c, x, reply);
            id in d.calls && CallMoves(c, Respond(x, reply), id, c.calls[id], d.calls[id])
  {
  }

  lemma ResumeMovesCall(c: Client, x: CallId, id: CallId)
    requires id in c.calls && x in c.calls && c.calls[x].phase.Awaiting? && c.calls[x].phase.flight < |c.flights|
    requires c.flights[c.calls[x].phase.flight].Done?
    ensures var d := OnResume(c, x); id in d.calls && CallMoves(c, Resume(x), id, c.calls[id], d.calls[id])
  {
  }

  lemma NextStarts(c: Client, step: Step, id: CallId)
    requires id !in c.calls
    ensures id in Next(c, step).calls <==> Starts(step, id)
    ensures Starts(step, id) ==>
              Next(c, step).calls[id] == Call(Sent, step.required, [if step.required then c.store.access else None])
  {
  }

  lemma {:induction false} NotStartedNotThere(kept: Option<Token>, steps: seq<Step>, id: CallId)
    requires forall k :: 0 <= k < |steps| ==> !Starts(steps[k], id)
    ensures id !in Run(kept, steps).calls
  {
    if steps != [] {
      hide Next;
      var init, last := steps[..|steps| - 1], steps[|steps| - 1];
      NotStartedNotThere(kept, init, id);
      NextStarts(Run(kept, init), last, id);
    }
  }

  /** The access token stored when the call starts. */
  ghost function StoredAt(kept: Option<Token>, steps: seq<Step>, i: nat): Option<Token>
    requires i <= |steps|
  {
    Run(kept, steps[..i]).store.access
  }

  lemma StoredLater(kept: Option<Token>, steps: seq<Step>, last: Step, i: nat)
    requires i <= |steps|
    ensures StoredAt(kept, steps + [last], i) == StoredAt(kept, steps, i)
  {
    assert (steps + [last])[..i] == steps[..i];
  }

  lemma ToldMoves(c: Client, steps: seq<Step>, last: Step, id: CallId, i: nat, access: Option<Token>, call: Call,
                  call': Call)
    requires CallTold(steps, id, i, access, call) && CallMoves(c, last, id, call, call')
    requires call.phase.Awaiting? ==> |call.requests| == 1
    ensures CallTold(steps + [last], id, i, access, call')
  {
    hide StartedAt, FirstReplyAt, Unanswered;
    UnansweredLater(steps, last, id, i);
    StartedLater(steps, last, id, i);
    assert (steps + [last])[i] == steps[i] && (steps + [last])[|steps|] == last;
    if j :| Refused(steps, id, i, j) {
      RefusedLater(steps, last, id, i, j);
    } else if Answers(last, id) && call.phase.Sent? {
      FirstReplyNow(steps, last, id, i);
      if call.required && last.reply == Unauthorized {
        assert Refused(steps + [last], id, i, |steps|);
      }
    }
  }

  lemma ToldAtStart(steps: seq<Step>, last: Step, id: CallId, access: Option<Token>)
    requires StartedAt(steps + [last], id, |steps|)
    ensures CallTold(steps + [last], id, |steps|, access,
                     Call(Sent, last.required, [if last.required then access else None]))
  {
    assert (steps + [last])[|steps|] == last;
  }

  /** The call's requests and whether it was answered, from the steps alone: its first request carries the access
      token stored when it started, and it goes beyond its first response only when that was a 401 and the call needs
      a session. */
  lemma {:induction false} CallFollowsReplies(kept: Option<Token>, steps: seq<Step>, id: CallId, i: nat)
    requires StartedAt(steps, id, i)
    ensures id in Run(kept, steps).calls
    ensures CallTold(steps, id, i, StoredAt(kept, steps, i), Run(kept, steps).calls[id])
    decreases |steps|
  {
    hide CallTold, Next, StoredAt;
    var init, last := steps[..|steps| - 1], steps[|steps| - 1];
    var c := Run(kept, init);
    assert steps == init + [last];
    if i == |init| {
      forall k | 0 <= k < |init| ensures !Starts(init[k], id) {
        assert init[k] == steps[k];
      }
      NotStartedNotThere(kept, init, id);
      NextStarts(c, last, id);
      StoredNow(kept, init, last);
      ToldAtStart(init, last, id, c.store.access);
    } else {
      StartedBefore(init, last, id, i);
      CallFollowsReplies(kept, init, id, i);
      AwaitingOnce(kept, init, id);
      NextMovesCall(c, last, id);
      StoredLater(kept, init, last, i);
      hide StartedAt, CallMoves;
      ToldMoves(c, init, last, id, i, StoredAt(kept, init, i), c.calls[id], Next(c, last).calls[id]);
    }
  }

  lemma AwaitingOnce(kept: Option<Token>, steps: seq<Step>, id: CallId)
    requires id in Run(kept, steps).calls
    ensures var call := Run(kept, steps).calls[id]; call.phase.Awaiting? ==> |call.requests| == 1
  {
    hide Run;
    EveryRunOk(kept, steps);
    assert CallOk(Run(kept, steps), Run(kept, steps).calls[id]);
  }

  lemma StartedBefore(steps: seq<Step>, last: Step, id: CallId, i: nat)
    requires i < |steps| && StartedAt(steps + [last], id, i)
    ensures StartedAt(steps, id, i)
  {
    var more := steps + [last];
    assert more[i] == steps[i];
    forall k | 0 <= k < i ensures !Starts(steps[k], id) {
      assert more[k] == steps[k];
    }
  }

  lemma StoredNow(kept: Option<Token>, steps: seq<Step>, last: Step)
    ensures StoredAt(kept, steps + [last], |steps|) == Run(kept, steps).store.access
  {
    assert (steps + [last])[..|steps|] == steps;
  }

  // ---------------------------------------------------------------- the main results

  /** Every call of a run was started by a step of it. */
  lemma {:induction false} StartedSomewhere(kept: Option<Token>, steps: seq<Step>, id: CallId) returns (i: nat)
    requires id in Run(kept, steps).calls
    ensures StartedAt(steps, id, i)
    decreases |steps|
  {
    hide Next, StartedAt;
    var init, last := steps[..|steps| - 1], steps[|steps| - 1];
    assert steps == init + [last];
    if id in Run(kept, init).calls {
      i := StartedSomewhere(kept, init, id);
      StartedLater(init, last, id, i);
    } else {
      NextStarts(Run(kept, init), last, id);
      i := |init|;
      StartedFirst(kept, init, last, id);
    }
  }

  lemma StartedFirst(kept: Option<Token>, steps: seq<Step>, last: Step, id: CallId)
    requires id !in Run(kept, steps).calls && Starts(last, id)
    ensures StartedAt(steps + [last], id, |steps|)
  {
    hide Run;
    var more := steps + [last];
    forall k | 0 <= k < |steps| ensures !Starts(more[k], id) {
      if Starts(steps[k], id) {
        StaysStarted(kept, steps, k, id);
      }
    }
    assert more[|steps|] == last;
  }

  lemma {:induction false} StaysStarted(kept: Option<Token>, steps: seq<Step>, k: nat, id: CallId)
    requires k < |steps| && Starts(steps[k], id)
    ensures id in Run(kept, steps).calls
    decreases |steps|
  {
    hide Next;
    var init, last := steps[..|steps| - 1], steps[|steps| - 1];
    if k < |init| {
      StaysStarted(kept, init, k, id);
    }
    if id in Run(kept, init).calls {
      NextMovesCall(Run(kept, init), last, id);
    } else {
      NextStarts(Run(kept, init), last, id);
    }
  }

  /** A request is sent a second time only if a 401 answered its first one and the call needs a session. */
  lemma SentAgainOnlyAfterRefusal(kept: Option<Token>, steps: seq<Step>, id: CallId)
    requires id in Run(kept, steps).calls && |Run(kept, steps).calls[id].requests| == 2
    ensures exists i, j :: Refused(steps, id, i, j)
  {
    hide Run, Refused, StartedAt, StoredAt;
    var i := StartedSomewhere(kept, steps, id);
    CallFollowsReplies(kept, steps, id, i);
    var j :| Refused(steps, id, i, j);
  }

  /** The first request of a call carries the access token stored when the call started, if it needs a session. */
  lemma FirstRequestCarriesToken(kept: Option<Token>, steps: seq<Step>, id: CallId, i: nat)
    requires StartedAt(steps, id, i)
    ensures id in Run(kept, steps).calls && |Run(kept, steps).calls[id].requests| >= 1
    ensures Run(kept, steps).calls[id].requests[0]
            == if steps[i].required then Run(kept, steps[..i]).store.access else None
  {
    hide Run, Refused, StartedAt, Unanswered;
    CallFollowsReplies(kept, steps, id, i);
  }

  /** The response that a step brings is the 401 to the first request of a call that needs a session. */
  lemma RefusalIff(kept: Option<Token>, steps: seq<Step>, id: CallId, reply: Reply)
    ensures var c := Run(kept, steps);
            IsRefusal(steps + [Respond(id, reply)], |steps|)
            <==> id in c.calls && c.calls[id].phase == Sent && c.calls[id].required && reply == Unauthorized
  {
    hide Run, StartedAt, StoredAt, Unanswered, FirstReplyAt;
    var c, last := Run(kept, steps), Respond(id, reply);
    var more := steps + [last];
    assert more[|steps|] == last;
    if id in c.calls {
      var i := StartedSomewhere(kept, steps, id);
      CallFollowsReplies(kept, steps, id, i);
      StartedLater(steps, last, id, i);
      StartBound(steps, id, i);
      assert more[i] == steps[i];
      if c.calls[id].phase == Sent {
        FirstReplyNow(steps, last, id, i);
        if c.calls[id].required && reply == Unauthorized {
          assert Refused(more, id, i, |steps|);
        }
      }
    }
    if i': nat :| Refused(more, id, i', |steps|) {
      ReplyBound(more, id, i', |steps|);
      StartedBefore(steps, last, id, i');
      assert more[i'] == steps[i'];
      CallFollowsReplies(kept, steps, id, i');
      UnansweredSoFar(steps, last, id, i');
    }
  }

  lemma StartBound(steps: seq<Step>, id: CallId, i: nat)
    requires StartedAt(steps, id, i)
    ensures i < |steps|
  {
  }

  lemma ReplyBound(steps: seq<Step>, id: CallId, i: nat, j: nat)
    requires FirstReplyAt(steps, id, i, j)
    ensures i < j < |steps|
  {
  }

  lemma UnansweredSoFar(steps: seq<Step>, last: Step, id: CallId, i: nat)
    requires FirstReplyAt(steps + [last], id, i, |steps|)
    ensures Unanswered(steps, id, i)
  {
    forall k | i < k < |steps| ensures !Answers(steps[k], id) {
      assert (steps + [last])[k] == steps[k];
    }
  }

  /** Where the call waits after its 401, and whether the client has to start the refresh for it. */
  function JoinedFlight(c: Client): FlightId {
    if c.inFlight.Some? then c.inFlight.value else |c.flights|
  }

  /** Such a 401 makes the call wait for the refresh in flight; without one it starts a refresh, which presents the
      stored refresh token or, without one, has failed at once.  Nothing else changes. */
  lemma RefusalJoinsRefresh(kept: Option<Token>, steps: seq<Step>, id: CallId)
    requires IsRefusal(steps + [Respond(id, Unauthorized)], |steps|)
    ensures var c, d := Run(kept, steps), Run(kept, steps + [Respond(id, Unauthorized)]);
            && id in c.calls && d.calls == c.calls[id := c.calls[id].(phase := Awaiting(JoinedFlight(c)))]
            && d.inFlight == Some(JoinedFlight(c)) && d.store == c.store && d.issued == c.issued
            && (c.inFlight.Some? ==> d.flights == c.flights && d.presented == c.presented)
            && (c.inFlight.None? && c.store.refresh.Some? ==>
                  && d.flights == c.flights + [Waiting(c.store.refresh.value)]
                  && d.presented == c.presented + [c.store.refresh.value])
            && (c.inFlight.None? && c.store.refresh.None? ==>
                  d.flights == c.flights + [Settled(false)] && d.presented == c.presented)
  {
    hide Run, IsRefusal;
    RefusalIff(kept, steps, id, Unauthorized);
    RunSnoc(kept, steps, Respond(id, Unauthorized));
  }

  /** Any other response (not a 401, for a call without a session, or to a request sent again) ends its call and
      changes nothing else: no refresh starts, no token is presented, the store stays. */
  lemma OtherResponsesEndTheCall(kept: Option<Token>, steps: seq<Step>, id: CallId, reply: Reply)
    requires !IsRefusal(steps + [Respond(id, reply)], |steps|)
    ensures var c, d := Run(kept, steps), Run(kept, steps + [Respond(id, reply)]);
            if id in c.calls && (c.calls[id].phase == Sent || c.calls[id].phase == Resent) then
              d == c.(calls := c.calls[id := c.calls[id].(phase := Ended)])
            else d == c
  {
    hide Run, IsRefusal;
    RefusalIff(kept, steps, id, reply);
    RunSnoc(kept, steps, Respond(id, reply));
  }

  /** A step that is not such a 401 starts no refresh and presents no token. */
  lemma OnlyRefusalsLaunch(kept: Option<Token>, steps: seq<Step>, step: Step)
    requires !IsRefusal(steps + [step], |steps|)
    ensures var c, d := Run(kept, steps), Run(kept, steps + [step]);
            |d.flights| == |c.flights| && d.presented == c.presented
  {
    hide Run, IsRefusal;
    RunSnoc(kept, steps, step);
    if step.Respond? {
      OtherResponsesEndTheCall(kept, steps, step.call, step.reply);
    }
  }

  lemma RefusalLater(steps: seq<Step>, last: Step, j: nat)
    requires j < |steps|
    ensures IsRefusal(steps, j) <==> IsRefusal(steps + [last], j)
  {
    hide StartedAt, FirstReplyAt;
    var more := steps + [last];
    assert more[j] == steps[j];
    if IsRefusal(steps, j) {
      var i :| Refused(steps, steps[j].call, i, j);
      RefusedLater(steps, last, steps[j].call, i, j);
    }
    if IsRefusal(more, j) {
      var i :| Refused(more, more[j].call, i, j);
      RefusedBefore(steps, last, more[j].call, i, j);
    }
  }

  lemma RefusedBefore(steps: seq<Step>, last: Step, id: CallId, i: nat, j: nat)
    requires j < |steps| && Refused(steps + [last], id, i, j)
    ensures Refused(steps, id, i, j)
  {
    var more := steps + [last];
    StartedBefore(steps, last, id, i);
    assert more[j] == steps[j] && more[i] == steps[i];
    forall k | i < k < j ensures !Answers(steps[k], id) {
      assert more[k] == steps[k];
    }
  }

  lemma RefusalsGrow(steps: seq<Step>, last: Step)
    ensures Refusals(steps + [last])
            == if IsRefusal(steps + [last], |steps|) then Refusals(steps) + {|steps|} else Refusals(steps)
  {
    hide IsRefusal;
    forall j: nat | j < |steps| ensures IsRefusal(steps, j) <==> IsRefusal(steps + [last], j) {
      RefusalLater(steps, last, j);
    }
  }

  /** Over every run no more refresh tokens are presented, and no more refreshes started, than first requests of calls
      that need a session were answered with a 401. */
  lemma {:induction false} RefreshesAtMostRefusals(kept: Option<Token>, steps: seq<Step>)
    ensures |Run(kept, steps).presented| <= |Run(kept, steps).flights| <= |Refusals(steps)|
  {
    if steps == [] {
      assert Run(kept, steps) == Loaded(kept);
    } else {
      hide Run, IsRefusal, Refusals;
      var init, last := steps[..|steps| - 1], steps[|steps| - 1];
      assert steps == init + [last];
      RefreshesAtMostRefusals(kept, init);
      RefusalsGrow(init, last);
      if IsRefusal(steps, |init|) {
        RefusalResponds(steps, |init|);
        RefusalJoinsRefresh(kept, init, last.call);
        NotCounted(init, |init|);
      } else {
        OnlyRefusalsLaunch(kept, init, last);
      }
    }
  }

  lemma RefusalResponds(steps: seq<Step>, j: nat)
    requires IsRefusal(steps, j)
    ensures j < |steps| && steps[j].Respond? && steps[j].reply == Unauthorized
  {
  }

  lemma NotCounted(steps: seq<Step>, j: nat)
    requires j >= |steps|
    ensures j !in Refusals(steps)
  {
  }

  /** A waiting call goes on as its refresh says: not before the refresh is over, then with one more request that
      carries the access token stored now, or not at all. */
  lemma WaiterFollowsItsRefresh(kept: Option<Token>, steps: seq<Step>, id: CallId)
    requires id in Run(kept, steps).calls && Run(kept, steps).calls[id].phase.Awaiting?
    ensures var c, d := Run(kept, steps), Run(kept, steps + [Resume(id)]);
            var call, f := c.calls[id], c.calls[id].phase.flight;
            && f < |c.flights| && |call.requests| == 1
            && d == if c.flights[f] == Done(true) then
                      c.(calls := c.calls[id := Call(Resent, true, call.requests + [c.store.access])])
                    else if c.flights[f] == Done(false) then c.(calls := c.calls[id := call.(phase := Ended)])
                    else c
  {
    hide Run;
    EveryRunOk(kept, steps);
    assert CallOk(Run(kept, steps), Run(kept, steps).calls[id]);
    RunSnoc(kept, steps, Resume(id));
  }

  /** A refresh that has succeeded was answered with a pair. */
  lemma {:induction false} SuccessWasAnswered(kept: Option<Token>, steps: seq<Step>, f: FlightId)
    requires f < |Run(kept, steps).flights|
    requires Run(kept, steps).flights[f] == Settled(true) || Run(kept, steps).flights[f] == Done(true)
    ensures exists pair :: RefreshBody(f, Some(pair)) in steps
    decreases |steps|
  {
    hide Next;
    var init, last := steps[..|steps| - 1], steps[|steps| - 1];
    var c := Run(kept, init);
    assert steps == init + [last];
    if last.RefreshBody? && last.flight == f && last.body.Some? {
      assert RefreshBody(f, Some(last.body.value)) in steps;
    } else {
      FlightMoves(c, last, f);
      SuccessWasAnswered(kept, init, f);
      var pair :| RefreshBody(f, Some(pair)) in init;
      assert RefreshBody(f, Some(pair)) in steps;
    }
  }

  lemma FlightMoves(c: Client, step: Step, f: FlightId)
    requires f < |Next(c, step).flights|
    requires Next(c, step).flights[f] == Settled(true) || Next(c, step).flights[f] == Done(true)
    requires !(step.RefreshBody? && step.flight == f && step.body.Some?)
    ensures f < |c.flights| && (c.flights[f] == Settled(true) || c.flights[f] == Done(true))
  {
  }

  /** The refresh f was answered with a pair by then, and the call waited for it. */
  ghost predicate ServedBy(kept: Option<Token>, steps: seq<Step>, id: CallId, k: nat, f: FlightId) {
    && k < |steps| && steps[k] == Resume(id) && id in Run(kept, steps[..k]).calls
    && Run(kept, steps[..k]).calls[id].phase == Awaiting(f)
    && exists pair :: RefreshBody(f, Some(pair)) in steps[..k]
  }

  /** A second request was sent when the call's own refresh had been answered with new tokens, and carries the access
      token stored at that moment. */
  lemma {:induction false} SecondRequestCarriesNewToken(kept: Option<Token>, steps: seq<Step>, id: CallId)
      returns (k: nat, f: FlightId)
    requires id in Run(kept, steps).calls && |Run(kept, steps).calls[id].requests| == 2
    ensures ServedBy(kept, steps, id, k, f)
    ensures Run(kept, steps).calls[id].requests[1] == Run(kept, steps[..k]).store.access
    decreases |steps|
  {
    hide Next;
    var init, last := steps[..|steps| - 1], steps[|steps| - 1];
    var c := Run(kept, init);
    assert steps == init + [last];
    if id !in c.calls {
      NextStarts(c, last, id);
    }
    NextMovesCall(c, last, id);
    if |c.calls[id].requests| == 2 {
      AwaitingOnce(kept, init, id);
      k, f := SecondRequestCarriesNewToken(kept, init, id);
      assert steps[..k] == init[..k];
    } else {
      AwaitingOnce(kept, init, id);
      RequestsBound(kept, init, id);
      WaiterFollowsItsRefresh(kept, init, id);
      k, f := |init|, c.calls[id].phase.flight;
      SuccessWasAnswered(kept, init, f);
    }
  }

  lemma RequestsBound(kept: Option<Token>, steps: seq<Step>, id: CallId)
    requires id in Run(kept, steps).calls
    ensures var call := Run(kept, steps).calls[id]; |call.requests| == 1 || |call.requests| == 2
  {
    hide Run;
    EveryRunOk(kept, steps);
    assert CallOk(Run(kept, steps), Run(kept, steps).calls[id]);
  }

  /** Who writes the token store: a login, a logout and a refresh that ends, each what it says; no call does. */
  lemma StoreWritten(kept: Option<Token>, steps: seq<Step>, step: Step)
    ensures Run(kept, []).store == Store(None, kept, false)
    ensures var c, d := Run(kept, steps), Run(kept, steps + [step]);
            match step
            case Login(pair) =>
              pair.refresh !in c.issued ==>
                d.store == Store(Some(pair.access), Some(pair.refresh), true)
            case Logout => d.store == Store(None, None, false)
            case RefreshStatus(f, accepted) =>
              d.store == if f < |c.flights| && c.flights[f].Waiting? && !accepted then Store(None, None, false)
                         else c.store
            case RefreshBody(f, body) =>
              f < |c.flights| && c.flights[f].Reading? && (body.Some? ==> body.value.refresh !in c.issued) ==>
                d.store == if body.Some? then Store(Some(body.value.access), Some(body.value.refresh), true)
                           else Store(None, None, false)
            case _ => d.store == c.store
  {
    hide OnResponse, OnResume;
    RunSnoc(kept, steps, step);
    match step
    case Respond(id, reply) =>
      if IsRefusal(steps + [step], |steps|) {
        RefusalIff(kept, steps, id, reply);
        RefusalJoinsRefresh(kept, steps, id);
      } else {
        OtherResponsesEndTheCall(kept, steps, id, reply);
      }
    case Resume(id) =>
      if id in Run(kept, steps).calls && Run(kept, steps).calls[id].phase.Awaiting? {
        WaiterFollowsItsRefresh(kept, steps, id);
      }
    case _ =>
  }
}
