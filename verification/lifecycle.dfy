/**
  The session across pages: login writes it, a 401 on the dashboard and
  logout clear it, and the dashboard guard reads it. Credentials come and
  go together.
 */
module SessionLifecycle {
  import opened Basics
  import opened Json
  import opened Http
  import opened Session
  import Login
  import Dashboard

  /** Every modelled outcome of a login submission keeps the credentials paired. */
  lemma LoginKeepsPaired(email: string, password: string, store: Store, f: Fetched)
    requires Paired(store)
    ensures Paired(Login.SubmitLogin(email, password, store, f).store)
  {
  }

  /** A profile load, whatever its outcome, keeps the credentials paired. */
  lemma ProfileKeepsPaired(store: Store, f: Fetched)
    requires Paired(store)
    ensures Paired(Dashboard.ReceiveProfile(store, f).store)
  {
  }

  /** Logging out keeps the credentials paired, by removing both. */
  lemma LogoutKeepsPaired(store: Store)
    ensures Paired(Dashboard.Logout(store).store)
  {
  }

  /** A successful login whose body carries a non-empty id and token lets the dashboard in with exactly those. */
  lemma LoginOpensDashboard(email: string, password: string, store: Store, f: Fetched, userId: string, token: string)
    requires Login.SubmitLogin(email, password, store, f).redirect.Some?
    requires var data := ClassifyPost("Login", f).data;
             Member(data, "userId") == Some(JStr(userId)) && Member(data, "token") == Some(JStr(token))
    requires userId != "" && token != ""
    ensures Dashboard.CheckSession(Login.SubmitLogin(email, password, store, f).store)
         == Dashboard.Proceed(userId, token)
  {
  }

  /** After a 401 on the profile request the dashboard guard turns the visitor away. */
  lemma UnauthorizedLocksDashboard(store: Store, r: Response)
    requires r.status == 401 && r.body.Parsed? && !r.body.value.JNull?
    ensures Dashboard.CheckSession(Dashboard.ReceiveProfile(store, Received(r)).store) == Dashboard.SignInRequired
  {
  }
}
