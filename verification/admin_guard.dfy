/** The request guard in front of the admin pages: a decision on the path
    and the (optional) session, taken before any page is rendered. */
module AdminGuard {
  import opened Wrappers

  /** Paths with this text at the start belong to the admin area. */
  const AdminPrefix: string := "/dashboard/admin"

  const AdminRole: string := "ADMIN"
  const LoginPath: string := "/login"
  const DashboardPath: string := "/dashboard"

  /** What the session provider knows about the signed-in user. */
  datatype Session = Session(role: string)

  /** Let the request through, or send the browser elsewhere. The target is
      resolved against the request URL, so only its path is kept here. */
  datatype Decision = Next | Redirect(location: string)

  predicate StartsWith(s: string, prefix: string)
  {
    |prefix| <= |s| && s[..|prefix|] == prefix
  }

  predicate IsAdminPath(pathname: string)
  {
    StartsWith(pathname, AdminPrefix)
  }

  /** The guard. The session is looked up only for admin paths. */
  function Guard(pathname: string, session: Option<Session>): (d: Decision)
    ensures d == Next || d == Redirect(LoginPath) || d == Redirect(DashboardPath)
    ensures d == Redirect(LoginPath) <==> IsAdminPath(pathname) && session.None?
  {
    if IsAdminPath(pathname) then
      match session
      case None => Redirect(LoginPath)
      case Some(sess) => if sess.role != AdminRole then Redirect(DashboardPath) else Next
    else Next
  }

  /** A request is let through exactly when it is outside the admin area or
      carries an ADMIN session; a signed-in non-admin is sent to the
      dashboard. */
  lemma GuardDecision(pathname: string, session: Option<Session>)
    ensures Guard(pathname, session) == Next <==>
              !IsAdminPath(pathname) || (session.Some? && session.value.role == AdminRole)
    ensures Guard(pathname, session) == Redirect(DashboardPath) <==>
              IsAdminPath(pathname) && session.Some? && session.value.role != AdminRole
  {
  }

  /** Outside the admin area the session plays no part. */
  lemma SessionIgnoredOutsideAdmin(pathname: string, s1: Option<Session>, s2: Option<Session>)
    requires !IsAdminPath(pathname)
    ensures Guard(pathname, s1) == Guard(pathname, s2) == Next
  {
  }

  /** The test is on text, not path segments: whatever follows the prefix,
      including "istrator" or no slash at all, the path is guarded. */
  lemma PrefixIsTextual(rest: string, session: Option<Session>)
    ensures IsAdminPath(AdminPrefix + rest)
    ensures Guard(AdminPrefix + rest, None) == Redirect(LoginPath)
    ensures session.Some? && session.value.role != AdminRole ==>
              Guard(AdminPrefix + rest, session) == Redirect(DashboardPath)
  {
    assert (AdminPrefix + rest)[..|AdminPrefix|] == AdminPrefix;
  }

  /** The paths the guard is registered for: the admin root and everything
      below it, segment-wise. */
  predicate Matched(pathname: string)
  {
    pathname == AdminPrefix || StartsWith(pathname, AdminPrefix + "/")
  }

  /** Every registered path passes the guard's own prefix test, so on
      those paths the guard's checks always apply. */
  lemma MatchedIsAdminPath(pathname: string)
    requires Matched(pathname)
    ensures IsAdminPath(pathname)
  {
    if pathname != AdminPrefix {
      assert pathname[..|AdminPrefix|] == (AdminPrefix + "/")[..|AdminPrefix|];
    }
  }

  /** What the framework does with a request: run the guard on a registered
      path, let everything else through untouched. On a registered path
      only an ADMIN session gets through. */
  function Route(pathname: string, session: Option<Session>): (d: Decision)
    ensures !Matched(pathname) ==> d == Next
    ensures Matched(pathname) ==>
              (d == Next <==> session.Some? && session.value.role == AdminRole)
  {
    if Matched(pathname) then
      MatchedIsAdminPath(pathname);
      Guard(pathname, session)
    else Next
  }
}
