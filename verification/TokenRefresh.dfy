/** The browser client's silent refresh: concurrent calls that meet a 401 share one refresh request, while
    logins and logouts write the same token store.  One step is one turn of the event loop. */
module TokenRefresh {
  import opened Text

  type Token = nat
  type CallId = nat
  type FlightId = nat

  datatype Store = Store(access: Option<Token>, refresh: Option<Token>, authenticated: bool)

  const SIGNED_OUT: Store := Store(None, None, false)

  /** A refresh: its request is out, its answer's body is out, its promise is settled, its cleanup has run. */
  datatype Flight = Waiting(token: Token) | Reading(token: Token) | Settled(ok: bool) | Done(ok: bool)

  datatype Phase = Sent | Awaiting(flight: FlightId) | Resent | Ended

  /** One apiFetch: the access token (if any) of every request it has sent. */
  datatype Call = Call(phase: Phase, required: bool, requests: seq<Option<Token>>)

  datatype Client = Client(
    store: Store,
    inFlight: Option<FlightId>,
    flights: seq<Flight>,
    calls: map<CallId, Call>,
    presented: seq<Token>,       // refresh tokens sent to the server, in order
    issued: set<Token>,          // refresh tokens the server has ever issued
    disturbed: bool              // a login or logout has landed since the last refresh request went out
  )

  datatype Reply = Unauthorized | Answered | Unreachable

  datatype Pair = Pair(access: Token, refresh: Token)

  datatype Step =
    | Start(call: CallId, required: bool)
    | Respond(call: CallId, reply: Reply)
    | RefreshStatus(flight: FlightId, accepted: bool)      // status line, or a network error
    | RefreshBody(flight: FlightId, body: Option<Pair>)
    | Cleanup(flight: FlightId)
    | Resume(call: CallId)
    | Login(pair: Pair)
    | Logout

  function SetTokens(c: Client, pair: Pair): Client {
    c.(store := Store(Some(pair.access), Some(pair.refresh), true), issued := c.issued + {pair.refresh})
  }

  function ClearSession(c: Client): Client {
    c.(store := SIGNED_OUT)
  }

  /** Start a refresh with the stored token; without one it settles at once. */
  function Launch(c: Client): Client {
    match c.store.refresh
    case None => c.(flights := c.flights + [Settled(false)], inFlight := Some(|c.flights|))
    case Some(t) =>
      c.(flights := c.flights + [Waiting(t)], inFlight := Some(|c.flights|), presented := c.presented + [t],
         disturbed := false)
  }

  /** Join the refresh in flight, or start one. */
  function RefreshOnce(c: Client): Client {
    if c.inFlight.Some? then c else Launch(c)
  }

  function SetCall(c: Client, id: CallId, call: Call): Client {
    c.(calls := c.calls[id := call])
  }

  function SetFlight(c: Client, f: FlightId, flight: Flight): Client
    requires f < |c.flights|
  {
    c.(flights := c.flights[f := flight])
  }

  function HasPhase(c: Client, id: CallId, phase: Phase): bool {
    id in c.calls && c.calls[id].phase == phase
  }

  function OnResponse(c: Client, id: CallId, reply: Reply): Client
    requires id in c.calls
  {
    var call := c.calls[id];
    if call.phase == Sent && reply == Unauthorized && call.required then
      var r := RefreshOnce(c);
      match r.inFlight
      case Some(f) => SetCall(r, id, call.(phase := Awaiting(f)))
      case None => r
    else SetCall(c, id, call.(phase := Ended))
  }

  function OnResume(c: Client, id: CallId): Client
    requires id in c.calls && c.calls[id].phase.Awaiting? && c.calls[id].phase.flight < |c.flights|
    requires c.flights[c.calls[id].phase.flight].Done?
  {
    var call := c.calls[id];
    if c.flights[call.phase.flight].ok then
      SetCall(c, id, call.(phase := Resent, requests := call.requests + [c.store.access]))
    else SetCall(c, id, call.(phase := Ended))
  }

  /** One step; a step that is not possible changes nothing.  The server never issues a token twice. */
  function Next(c: Client, step: Step): Client {
    match step
    case Start(id, required) =>
      if id in c.calls then c
      else SetCall(c, id, Call(Sent, required, [if required then c.store.access else None]))
    case Respond(id, reply) =>
      if HasPhase(c, id, Sent) || HasPhase(c, id, Resent) then OnResponse(c, id, reply) else c
    case RefreshStatus(f, accepted) =>
      if f < |c.flights| && c.flights[f].Waiting? then
        if accepted then SetFlight(c, f, Reading(c.flights[f].token))
        else ClearSession(SetFlight(c, f, Settled(false)))
      else c
    case RefreshBody(f, body) =>
      if f < |c.flights| && c.flights[f].Reading? then
        match body
        case None => ClearSession(SetFlight(c, f, Settled(false)))
        case Some(pair) => if pair.refresh in c.issued then c else SetTokens(SetFlight(c, f, Settled(true)), pair)
      else c
    case Cleanup(f) =>
      if f < |c.flights| && c.flights[f].Settled? then SetFlight(c, f, Done(c.flights[f].ok)).(inFlight := None) else c
    case Resume(id) =>
      if id in c.calls && c.calls[id].phase.Awaiting? && c.calls[id].phase.flight < |c.flights|
         && c.flights[c.calls[id].phase.flight].Done? then OnResume(c, id) else c
    case Login(pair) => if pair.refresh in c.issued then c else SetTokens(c, pair).(disturbed := true)
    case Logout => ClearSession(c).(disturbed := true)
  }

  /** After loading the page: only a refresh token may have been kept. */
  function Loaded(kept: Option<Token>): Client {
    Client(Store(None, kept, false), None, [], map[], [], if kept.Some? then {kept.value} else {}, false)
  }

  function Run(kept: Option<Token>, steps: seq<Step>): Client {
    if steps == [] then Loaded(kept) else Next(Run(kept, steps[..|steps| - 1]), steps[|steps| - 1])
  }

  // ---------------------------------------------------------------- what every interleaving keeps

  /** The refresh token whose answer is still awaited, if any. */
  function Outstanding(c: Client): Option<Token> {
    if c.inFlight.Some? && c.inFlight.value < |c.flights| then
      match c.flights[c.inFlight.value]
      case Waiting(t) => Some(t)
      case Reading(t) => Some(t)
      case _ => None
    else None
  }

  /** The variable points at the one flight that is not finished. */
  ghost predicate FlightsOk(c: Client) {
    && (c.inFlight.Some? ==> c.inFlight.value < |c.flights|)
    && forall f :: 0 <= f < |c.flights| ==> (c.flights[f].Done? <==> c.inFlight != Some(f))
  }

  ghost predicate Distinct(s: seq<Token>) {
    forall i, j :: 0 <= i < j < |s| ==> s[i] != s[j]
  }

  ghost predicate TokensOk(c: Client) {
    && Distinct(c.presented) && (forall t :: t in c.presented ==> t in c.issued)
    && (c.store.refresh.Some? ==> c.store.refresh.value in c.issued)
    && (c.store.refresh.Some? && c.store.refresh.value in c.presented ==> Outstanding(c) == c.store.refresh)
    && (Outstanding(c).Some? ==> Outstanding(c).value in c.presented)
    && (Outstanding(c).Some? ==> (c.disturbed <==> c.store.refresh != Outstanding(c)))
  }

  ghost predicate CallOk(c: Client, call: Call) {
    && (call.phase.Sent? ==> |call.requests| == 1)
    && (call.phase.Awaiting? ==> |call.requests| == 1 && call.required && call.phase.flight < |c.flights|)
    && (call.phase.Resent? ==> |call.requests| == 2)
    && 1 <= |call.requests| <= 2
    && (|call.requests| == 2 ==> call.required && Done(true) in c.flights)
  }

  ghost predicate CallsOk(c: Client) {
    forall id :: id in c.calls ==> CallOk(c, c.calls[id])
  }

  ghost predicate Inv(c: Client) {
    FlightsOk(c) && TokensOk(c) && CallsOk(c)
  }

  /** Flights only grow, and finished ones stay. */
  ghost predicate FlightsGrow(c: Client, c': Client) {
    && |c.flights| <= |c'.flights|
    && forall f :: 0 <= f < |c.flights| && c.flights[f].Done? ==> c'.flights[f] == c.flights[f]
  }

  lemma CallStaysOk(c: Client, c': Client, call: Call)
    requires CallOk(c, call) && FlightsGrow(c, c')
    ensures CallOk(c', call)
  {
    if Done(true) in c.flights {
      var f :| 0 <= f < |c.flights| && c.flights[f] == Done(true);
      assert c'.flights[f] == Done(true);
    }
  }

  lemma CallsStayOk(c: Client, c': Client)
    requires CallsOk(c) && FlightsGrow(c, c') && c'.calls == c.calls
    ensures CallsOk(c')
  {
    forall id | id in c'.calls ensures CallOk(c', c'.calls[id]) {
      CallStaysOk(c, c', c.calls[id]);
    }
  }

  lemma SetCallKeeps(c: Client, id: CallId, call: Call)
    requires Inv(c) && CallOk(c, call)
    ensures Inv(SetCall(c, id, call))
  {
    var c' := SetCall(c, id, call);
    forall x | x in c'.calls ensures CallOk(c', c'.calls[x]) {
      if x == id {
        CallStaysOk(c, c', call);
      } else {
        CallStaysOk(c, c', c.calls[x]);
      }
    }
  }

  lemma LaunchKeeps(c: Client)
    requires Inv(c) && c.inFlight == None
    ensures Inv(Launch(c)) && Launch(c).inFlight == Some(|c.flights|) && FlightsGrow(c, Launch(c))
  {
    var c' := Launch(c);
    CallsStayOk(c, c');
  }

  lemma SettleKeeps(c: Client, f: FlightId, flight: Flight)
    requires Inv(c) && f < |c.flights| && !c.flights[f].Done? && !flight.Done?
    ensures var c' := SetFlight(c, f, flight); FlightsOk(c') && CallsOk(c')
  {
    CallsStayOk(c, SetFlight(c, f, flight));
  }

  lemma RespondKeeps(c: Client, id: CallId, reply: Reply)
    requires Inv(c) && id in c.calls && (c.calls[id].phase.Sent? || c.calls[id].phase.Resent?)
    ensures Inv(OnResponse(c, id, reply))
  {
    var call := c.calls[id];
    assert CallOk(c, call);
    if call.phase == Sent && reply == Unauthorized && call.required {
      var r := RefreshOnce(c);
      if c.inFlight == None {
        LaunchKeeps(c);
        CallStaysOk(c, r, call);
      }
      SetCallKeeps(r, id, call.(phase := Awaiting(r.inFlight.value)));
    } else {
      SetCallKeeps(c, id, call.(phase := Ended));
    }
  }

  lemma ResumeKeeps(c: Client, id: CallId)
    requires Inv(c) && id in c.calls && c.calls[id].phase.Awaiting? && c.calls[id].phase.flight < |c.flights|
    requires c.flights[c.calls[id].phase.flight].Done?
    ensures Inv(OnResume(c, id))
  {
    var call := c.calls[id];
    assert CallOk(c, call);
    if c.flights[call.phase.flight].ok {
      assert c.flights[call.phase.flight] == Done(true);
      SetCallKeeps(c, id, call.(phase := Resent, requests := call.requests + [c.store.access]));
    } else {
      SetCallKeeps(c, id, call.(phase := Ended));
    }
  }

  lemma StatusKeeps(c: Client, f: FlightId, accepted: bool)
    requires Inv(c)
    ensures Inv(Next(c, RefreshStatus(f, accepted)))
  {
    if f < |c.flights| && c.flights[f].Waiting? {
      SettleKeeps(c, f, if accepted then Reading(c.flights[f].token) else Settled(false));
      assert c.inFlight == Some(f);
    }
  }

  lemma BodyKeeps(c: Client, f: FlightId, body: Option<Pair>)
    requires Inv(c)
    ensures Inv(Next(c, RefreshBody(f, body)))
  {
    if f < |c.flights| && c.flights[f].Reading? {
      SettleKeeps(c, f, Settled(body.Some?));
      assert c.inFlight == Some(f);
    }
  }

  lemma CleanupKeeps(c: Client, f: FlightId)
    requires Inv(c)
    ensures Inv(Next(c, Cleanup(f)))
  {
    if f < |c.flights| && c.flights[f].Settled? {
      assert c.inFlight == Some(f);
      CallsStayOk(c, Next(c, Cleanup(f)));
    }
  }

  lemma SessionKeeps(c: Client, step: Step)
    requires Inv(c) && (step.Login? || step.Logout?)
    ensures Inv(Next(c, step))
  {
    CallsStayOk(c, Next(c, step));
  }

  lemma NextKeeps(c: Client, step: Step)
    requires Inv(c)
    ensures Inv(Next(c, step))
  {
    hide Inv;
    match step
    case Start(id, required) =>
      if id !in c.calls {
        SetCallKeeps(c, id, Call(Sent, required, [if required then c.store.access else None]));
      }
    case Respond(id, reply) =>
      if HasPhase(c, id, Sent) || HasPhase(c, id, Resent) { RespondKeeps(c, id, reply); }
    case RefreshStatus(f, accepted) => StatusKeeps(c, f, accepted);
    case RefreshBody(f, body) => BodyKeeps(c, f, body);
    case Cleanup(f) => CleanupKeeps(c, f);
    case Resume(id) =>
      if id in c.calls && c.calls[id].phase.Awaiting? && c.calls[id].phase.flight < |c.flights|
         && c.flights[c.calls[id].phase.flight].Done? { ResumeKeeps(c, id); }
    case Login(_) => SessionKeeps(c, step);
    case Logout => SessionKeeps(c, step);
  }

  lemma {:induction false} EveryRunOk(kept: Option<Token>, steps: seq<Step>)
    ensures Inv(Run(kept, steps))
  {
    if steps != [] {
      EveryRunOk(kept, steps[..|steps| - 1]);
      NextKeeps(Run(kept, steps[..|steps| - 1]), steps[|steps| - 1]);
    }
  }

  // ---------------------------------------------------------------- theorems over every interleaving

  /** At most one refresh is ever unfinished, whatever calls, logins and logouts are in between. */
  lemma SingleFlight(kept: Option<Token>, steps: seq<Step>, f: FlightId, g: FlightId)
    requires var c := Run(kept, steps); f < |c.flights| && g < |c.flights| && !c.flights[f].Done? && !c.flights[g].Done?
    ensures f == g && Run(kept, steps).inFlight == Some(f)
  {
    EveryRunOk(kept, steps);
  }

  /** No refresh token is presented to the server twice. */
  lemma NoTokenPresentedTwice(kept: Option<Token>, steps: seq<Step>, i: nat, j: nat)
    requires i < j < |Run(kept, steps).presented|
    ensures Run(kept, steps).presented[i] != Run(kept, steps).presented[j]
  {
    EveryRunOk(kept, steps);
  }

  /** A call sends its request once or twice; twice only when it needs a session and a refresh has succeeded. */
  lemma AtMostTwoRequests(kept: Option<Token>, steps: seq<Step>, id: CallId)
    requires id in Run(kept, steps).calls
    ensures var c := Run(kept, steps);
            var n := |c.calls[id].requests|;
            1 <= n <= 2 && (n == 2 ==> c.calls[id].required && Done(true) in c.flights)
  {
    EveryRunOk(kept, steps);
    assert CallOk(Run(kept, steps), Run(kept, steps).calls[id]);
  }

  /** No call waits for a refresh that nobody is running: its refresh is the one in flight, or is over and
      the call can go on. */
  lemma NoCallForgotten(kept: Option<Token>, steps: seq<Step>, id: CallId)
    requires id in Run(kept, steps).calls && Run(kept, steps).calls[id].phase.Awaiting?
    ensures var c := Run(kept, steps);
            var f := c.calls[id].phase.flight;
            && f < |c.flights|
            && (c.inFlight == Some(f) || (c.flights[f].Done? && !Next(c, Resume(id)).calls[id].phase.Awaiting?))
  {
    EveryRunOk(kept, steps);
    assert CallOk(Run(kept, steps), Run(kept, steps).calls[id]);
  }

  /** The step by which a refresh fails: it is refused or does not arrive, or its answer cannot be read. */
  ghost predicate Fails(c: Client, f: FlightId, step: Step) {
    f < |c.flights| &&
    match c.flights[f]
    case Waiting(_) => step == RefreshStatus(f, false)
    case Reading(_) => step == RefreshBody(f, None)
    case _ => false
  }

  /** A failing refresh, in either way, clears the store; what it clears is the session it presented exactly when no
      login or logout has landed since its request went out. */
  lemma FailureClearsItsOwnSessionIff(kept: Option<Token>, steps: seq<Step>, f: FlightId, failure: Step)
    requires Fails(Run(kept, steps), f, failure)
    ensures var c := Run(kept, steps);
            && Next(c, failure).store == Store(None, None, false) && Next(c, failure).flights[f] == Settled(false)
            && (c.store.refresh == Some(c.flights[f].token) <==> !c.disturbed)
  {
    EveryRunOk(kept, steps);
    hide Run;
  }

  /** The same for success: the refreshed tokens replace the session they come from, or a newer login. */
  lemma SuccessReplacesItsOwnSessionIff(kept: Option<Token>, steps: seq<Step>, f: FlightId, pair: Pair)
    requires var c := Run(kept, steps); f < |c.flights| && c.flights[f].Reading? && pair.refresh !in c.issued
    ensures var c := Run(kept, steps);
            && Next(c, RefreshBody(f, Some(pair))).store == Store(Some(pair.access), Some(pair.refresh), true)
            && (c.store.refresh == Some(c.flights[f].token) <==> !c.disturbed)
  {
    EveryRunOk(kept, steps);
  }

  /** A login that lands while an older refresh is failing is signed out by it. */
  lemma LoginLostToFailingRefresh(r: Token, pair: Pair)
    requires pair.refresh != r
    ensures var c := Run(Some(r), [Start(0, true), Respond(0, Unauthorized), Login(pair)]);
            && c.store == Store(Some(pair.access), Some(pair.refresh), true) && c.flights == [Waiting(r)]
            && Next(c, RefreshStatus(0, false)).store == Store(None, None, false)
  {
    var a := [Start(0, true)];
    var b := a + [Respond(0, Unauthorized)];
    assert a[..0] == [] && b[..1] == a && (b + [Login(pair)])[..2] == b;
    assert [Start(0, true), Respond(0, Unauthorized), Login(pair)] == b + [Login(pair)];
    assert Run(Some(r), []) == Loaded(Some(r));
    var c1 := Run(Some(r), a);
    assert c1 == Next(Run(Some(r), a[..0]), a[0]);
    assert c1.calls[0] == Call(Sent, true, [None]) && c1.store.refresh == Some(r) && c1.inFlight == None
           && c1.flights == [];
    var c2 := Run(Some(r), b);
    assert c2 == Next(c1, Respond(0, Unauthorized));
    assert c2.flights == [Waiting(r)] && c2.issued == {r};
  }

  lemma RunSnoc(kept: Option<Token>, steps: seq<Step>, step: Step)
    ensures Run(kept, steps + [step]) == Next(Run(kept, steps), step)
  {
    assert (steps + [step])[..|steps|] == steps;
  }

  /** A step that writes no token: no login, no logout, no answer to a refresh. */
  ghost predicate LeavesTokens(step: Step) {
    !step.Login? && !step.Logout? && !step.RefreshStatus? && !step.RefreshBody?
  }

  /** The refresh f has stored its pair, and the call still waits for it. */
  ghost predicate Served(c: Client, f: FlightId, pair: Pair, id: CallId, call: Call) {
    && c.store.access == Some(pair.access) && id in c.calls && c.calls[id] == call && call.phase == Awaiting(f)
    && f < |c.flights| && (c.flights[f] == Settled(true) || c.flights[f] == Done(true))
  }

  lemma StaysServed(c: Client, step: Step, f: FlightId, pair: Pair, id: CallId, call: Call)
    requires Served(c, f, pair, id, call) && LeavesTokens(step) && step != Resume(id)
    ensures var c' := Next(c, step);
            && Served(c', f, pair, id, call)
            && (c.flights[f] == Done(true) || step == Cleanup(f) ==> c'.flights[f] == Done(true))
  {
  }

  lemma {:induction false} ServedThroughout(kept: Option<Token>, steps: seq<Step>, more: seq<Step>, f: FlightId,
                                            pair: Pair, id: CallId, call: Call)
    requires Served(Run(kept, steps), f, pair, id, call)
    requires forall step :: step in more ==> LeavesTokens(step) && step != Resume(id)
    ensures var c := Run(kept, steps + more);
            Served(c, f, pair, id, call) && (Cleanup(f) in more ==> c.flights[f] == Done(true))
    decreases |more|
  {
    if more == [] {
      assert steps + more == steps;
    } else {
      var init, last := more[..|more| - 1], more[|more| - 1];
      assert more == init + [last] && last in more;
      hide Run, Next, Served;
      ServedThroughout(kept, steps, init, f, pair, id, call);
      ServedMeans(Run(kept, steps + init), f, pair, id, call);
      StaysServed(Run(kept, steps + init), last, f, pair, id, call);
      RunSnoc(kept, steps + init, last);
      Assoc(steps, init, [last]);
    }
  }

  lemma ServedMeans(c: Client, f: FlightId, pair: Pair, id: CallId, call: Call)
    requires Served(c, f, pair, id, call)
    ensures f < |c.flights|
  {
  }

  /** A refresh that succeeds reaches every call that waits for it: whatever happens between its answer and
      the call's turn (new calls, other waiters going on, even the next refresh starting), as long as the
      cleanup has run and no token has been written meanwhile, the call's second request carries the new
      access token.  The cleanup frees the variable. */
  lemma RefreshReachesWaiter(kept: Option<Token>, steps: seq<Step>, f: FlightId, pair: Pair, more: seq<Step>,
                             id: CallId)
    requires var c := Run(kept, steps);
             && f < |c.flights| && c.flights[f].Reading? && pair.refresh !in c.issued
             && id in c.calls && c.calls[id].phase == Awaiting(f)
    requires Cleanup(f) in more && forall step :: step in more ==> LeavesTokens(step) && step != Resume(id)
    ensures var c, d := Run(kept, steps), Run(kept, steps + [RefreshBody(f, Some(pair))] + more + [Resume(id)]);
            && id in d.calls && d.calls[id].phase == Resent
            && d.calls[id].requests == c.calls[id].requests + [Some(pair.access)] && |d.calls[id].requests| == 2
    ensures Run(kept, steps + [RefreshBody(f, Some(pair))] + [Cleanup(f)]).inFlight == None
  {
    var body := RefreshBody(f, Some(pair));
    EveryRunOk(kept, steps);
    var c := Run(kept, steps);
    assert CallOk(c, c.calls[id]);
    RunSnoc(kept, steps, body);
    var c1 := Run(kept, steps + [body]);
    assert c1 == Next(c, body) && Served(c1, f, pair, id, c.calls[id]) && c1.flights[f] == Settled(true);
    RunSnoc(kept, steps + [body], Cleanup(f));
    hide Run, Inv, LeavesTokens;
    ServedThroughout(kept, steps + [body], more, f, pair, id, c.calls[id]);
    RunSnoc(kept, steps + [body] + more, Resume(id));
  }
}
