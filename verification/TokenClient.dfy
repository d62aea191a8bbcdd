/** The token store and the fetch wrapper as they run: each method is one turn of the event loop, proved
    against one step of TokenRefresh. */
module TokenClient {
  import opened Text
  import opened TokenRefresh

  class AuthStore {
    var accessToken: Option<Token>
    var refreshToken: Option<Token>
    var isAuthenticated: bool

    /** Only the refresh token is kept over a reload. */
    constructor (kept: Option<Token>)
      ensures View() == Store(None, kept, false)
    {
      accessToken, refreshToken, isAuthenticated := None, kept, false;
    }

    ghost function View(): Store
      reads this
    {
      Store(accessToken, refreshToken, isAuthenticated)
    }

    method SetTokens(access: Token, refresh: Token)
      modifies this
      ensures View() == Store(Some(access), Some(refresh), true)
    {
      accessToken, refreshToken, isAuthenticated := Some(access), Some(refresh), true;
    }

    method ClearSession()
      modifies this
      ensures View() == SIGNED_OUT
    {
      accessToken, refreshToken, isAuthenticated := None, None, false;
    }
  }

  class ApiClient {
    const auth: AuthStore
    var refreshInFlight: Option<FlightId>
    var flights: seq<Flight>
    var calls: map<CallId, Call>
    ghost var presented: seq<Token>
    ghost var issued: set<Token>
    ghost var disturbed: bool

    constructor (kept: Option<Token>)
      ensures fresh(auth) && View() == Loaded(kept) && Valid()
    {
      var store := new AuthStore(kept);
      auth := store;
      refreshInFlight, flights, calls := None, [], map[];
      presented, issued, disturbed := [], if kept.Some? then {kept.value} else {}, false;
      new;
      EveryRunOk(kept, []);
    }

    ghost function View(): Client
      reads this, auth
    {
      Client(auth.View(), refreshInFlight, flights, calls, presented, issued, disturbed)
    }

    ghost predicate Valid()
      reads this, auth
    {
      Inv(View())
    }

    /** apiFetch up to its first await. */
    method ApiFetch(id: CallId, required: bool)
      requires Valid() && id !in calls
      modifies this
      ensures Valid() && View() == Next(old(View()), Start(id, required))
    {
      NextKeeps(View(), Start(id, required));
      calls := calls[id := Call(Sent, required, [if required then auth.accessToken else None])];
    }

    /** A response arrives: a first 401 joins the refresh in flight or starts one. */
    method OnReply(id: CallId, reply: Reply)
      requires Valid() && id in calls && (calls[id].phase.Sent? || calls[id].phase.Resent?)
      modifies this
      ensures Valid() && View() == Next(old(View()), Respond(id, reply))
      ensures Distinct(presented)
    {
      NextKeeps(View(), Respond(id, reply));
      var call := calls[id];
      if call.phase == Sent && reply == Unauthorized && call.required {
        var f := JoinRefresh();
        calls := calls[id := call.(phase := Awaiting(f))];
      } else {
        calls := calls[id := call.(phase := Ended)];
      }
    }

    method JoinRefresh() returns (f: FlightId)
      modifies this
      ensures View() == RefreshOnce(old(View())) && refreshInFlight == Some(f)
    {
      if refreshInFlight == None {
        refreshInFlight := Some(|flights|);
        match auth.refreshToken {
          case None => flights := flights + [Settled(false)];
          case Some(t) =>
            flights := flights + [Waiting(t)];
            presented, disturbed := presented + [t], false;
        }
      }
      f := refreshInFlight.value;
    }

    /** The refresh endpoint's status, or a network error. */
    method OnRefreshStatus(f: FlightId, accepted: bool)
      requires Valid() && f < |flights| && flights[f].Waiting?
      modifies this, auth
      ensures Valid() && View() == Next(old(View()), RefreshStatus(f, accepted))
    {
      NextKeeps(View(), RefreshStatus(f, accepted));
      if accepted {
        flights := flights[f := Reading(flights[f].token)];
      } else {
        auth.ClearSession();
        flights := flights[f := Settled(false)];
      }
    }

    /** The new pair, or a body that cannot be read. */
    method OnRefreshBody(f: FlightId, body: Option<Pair>)
      requires Valid() && f < |flights| && flights[f].Reading?
      requires body.Some? ==> body.value.refresh !in issued
      modifies this, auth
      ensures Valid() && View() == Next(old(View()), RefreshBody(f, body))
    {
      NextKeeps(View(), RefreshBody(f, body));
      match body {
        case Some(pair) =>
          auth.SetTokens(pair.access, pair.refresh);
          issued := issued + {pair.refresh};
        case None =>
          auth.ClearSession();
      }
      flights := flights[f := Settled(body.Some?)];
    }

    /** The promise's finally clause. */
    method OnSettled(f: FlightId)
      requires Valid() && f < |flights| && flights[f].Settled?
      modifies this
      ensures Valid() && View() == Next(old(View()), Cleanup(f))
    {
      NextKeeps(View(), Cleanup(f));
      flights := flights[f := Done(flights[f].ok)];
      refreshInFlight := None;
    }

    /** The call goes on: once more with the token now stored, or fails. */
    method OnRefreshed(id: CallId)
      requires Valid() && id in calls && calls[id].phase.Awaiting?
      requires calls[id].phase.flight < |flights| && flights[calls[id].phase.flight].Done?
      modifies this
      ensures Valid() && View() == Next(old(View()), Resume(id))
      ensures id in calls && |calls[id].requests| <= 2
    {
      NextKeeps(View(), Resume(id));
      var call := calls[id];
      if flights[call.phase.flight].ok {
        calls := calls[id := call.(phase := Resent, requests := call.requests + [auth.accessToken])];
      } else {
        calls := calls[id := call.(phase := Ended)];
      }
    }

    method OnLogin(pair: Pair)
      requires Valid() && pair.refresh !in issued
      modifies this, auth
      ensures Valid() && View() == Next(old(View()), Login(pair))
    {
      NextKeeps(View(), Login(pair));
      auth.SetTokens(pair.access, pair.refresh);
      issued, disturbed := issued + {pair.refresh}, true;
    }

    method OnLogout()
      requires Valid()
      modifies this, auth
      ensures Valid() && View() == Next(old(View()), Logout)
    {
      NextKeeps(View(), Logout);
      auth.ClearSession();
      disturbed := true;
    }
  }
}
