/** The guard around every page but the login page
    (client/src/components/auth-guard.tsx): it asks `/api/auth/me`, shows a
    "verifying" panel while the answer is loading, shows the page when a
    user came back without error, and otherwise renders nothing, drops the
    stored `auth-token` and moves the browser to `/login`. */
module AuthGuard {
  import opened Wrappers
  import Routes

  /** The state of the `['/api/auth/me']` query: loading, failed, and the
      `user` field of the data it last received. */
  datatype MeQuery = MeQuery(isLoading: bool, isError: bool, user: Option<Routes.SessionUser>)

  /** `!!data?.user && !isError`. */
  predicate IsAuthenticated(q: MeQuery) {
    q.user.Some? && !q.isError
  }

  datatype Render = Verifying | Nothing | Children

  function RenderOf(q: MeQuery): (r: Render)
    ensures r.Verifying? <==> q.isLoading
    ensures r.Children? <==> !q.isLoading && IsAuthenticated(q)
    ensures r.Nothing? <==> !q.isLoading && !IsAuthenticated(q)
  {
    if q.isLoading then Verifying
    else if !IsAuthenticated(q) then Nothing
    else Children
  }

  /** The effect's condition: loaded and not authenticated. */
  predicate Redirects(q: MeQuery) {
    !q.isLoading && !IsAuthenticated(q)
  }

  /** The browser is sent to the login page exactly when the guard renders
      nothing. */
  lemma RedirectsWhenNothingShown(q: MeQuery)
    ensures Redirects(q) <==> RenderOf(q) == Nothing
  {
  }

  /** The settled query for an answer of `/api/auth/me`: a 200 answer gives
      `{ user }`, any error status fails the query. */
  function Settled(reply: Routes.Reply<Routes.SessionUser>): (q: MeQuery)
    ensures !q.isLoading
    ensures q.isError <==> reply.Error?
    ensures reply.Json? ==> q.user == Some(reply.value)
  {
    match reply
    case Json(_, u) => MeQuery(false, false, Some(u))
    case Error(_, _) => MeQuery(false, true, None)
  }

  /** Once the answer is in, the page is shown exactly when the session
      holds a user. */
  lemma GuardFollowsSession(session: Option<Routes.SessionUser>)
    ensures RenderOf(Settled(Routes.Me(session))) == (if session.Some? then Children else Nothing)
  {
  }

  /** The guard and the server's gate disagree on a session user with an
      empty id: the guard shows the page while every gated request of that
      page is answered 401. */
  lemma GuardShowsPageTheGateRefuses()
    ensures var s := Some(Routes.SessionUser("", "ann", "ann@example.com"));
            RenderOf(Settled(Routes.Me(s))) == Children && Routes.RequireAuth(s).Some?
  {
  }

  const TokenKey := "auth-token"
  const LoginPath := "/login"

  /** The parts of the browser the guard's effect touches. */
  class Browser {
    var storage: map<string, string>
    var location: string

    constructor(storage: map<string, string>, location: string)
      ensures this.storage == storage && this.location == location
    {
      this.storage := storage;
      this.location := location;
    }

    /** The guard's effect, run after each render. */
    method GuardEffect(q: MeQuery)
      modifies this
      ensures Redirects(q) ==> storage == old(storage) - {TokenKey} && location == LoginPath
      ensures !Redirects(q) ==> storage == old(storage) && location == old(location)
    {
      if !q.isLoading && !IsAuthenticated(q) {
        storage := storage - {TokenKey};
        location := LoginPath;
      }
    }
  }
}
