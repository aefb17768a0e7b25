/**
 * The authentication options the dashboard guard uses
 * (`app/api/auth/authOptions.ts`): the admin allow-list read from the
 * environment, the fixed-admin credentials check, and the `signIn` and
 * `session` callbacks that decide who gets in and with which role.
 */
module AuthOptions {
  import opened Base
  import opened Text
  import opened NextAuth

  /**
   * `ADMIN_EMAILS` split on ',' exactly as written (no trimming), or no
   * entries when the variable is unset or empty.
   */
  function AdminEmails(env: Option<string>): (r: seq<string>)
    ensures forall k :: 0 <= k < |r| ==> ',' !in r[k]
    ensures Truthy(env) ==> Join(r, ",") == env.value
    ensures !Truthy(env) ==> r == []
  {
    if Truthy(env) then
      JoinSplit(env.value, ',');
      Split(env.value, ',')
    else []
  }

  /** Writing a list of comma-free entries joined by ',' into the variable gives those entries back, spaces and all. */
  lemma AdminEmailsOf(entries: seq<string>)
    requires |entries| >= 1 && Join(entries, ",") != ""
    requires forall k :: 0 <= k < |entries| ==> ',' !in entries[k]
    ensures AdminEmails(Some(Join(entries, ","))) == entries
  {
    SplitJoin(entries, ',');
  }

  /**
   * The credentials `authorize`: the form's email and password compared
   * with `ADMIN_EMAIL` and `ADMIN_PASSWORD` by strict equality, so an
   * absent form field equals an unset variable.
   */
  function Authorize(credentials: Option<Credentials>, adminEmail: Option<string>, adminPassword: Option<string>): (r: Option<AuthUser>)
    ensures r.Some? <==> credentials.Some? && credentials.value.email == adminEmail && credentials.value.password == adminPassword
    ensures r.Some? ==> r.value.id == "1" && r.value.name == "Admin User" && r.value.role == "admin"
    ensures r.Some? ==> r.value.email == adminEmail
  {
    if credentials.Some? && credentials.value.email == adminEmail && credentials.value.password == adminPassword then
      Some(AuthUser("1", "Admin User", credentials.value.email, "admin"))
    else None
  }

  /** With both variables set, only that email and that password are accepted. */
  lemma AuthorizeNeedsSecrets(credentials: Option<Credentials>, email: string, password: string)
    requires Authorize(credentials, Some(email), Some(password)).Some?
    ensures credentials == Some(Credentials(Some(email), Some(password)))
  {
  }

  /** With both variables unset, a form that sends neither field is accepted as the admin. */
  lemma UnsetSecretsAcceptEmptyForm()
    ensures Authorize(Some(Credentials(None, None)), None, None) == Some(AuthUser("1", "Admin User", None, "admin"))
  {
  }

  /** The `signIn` callback: an email on the allow-list, or any user in development. */
  predicate SignInAllowed(admins: seq<string>, email: Option<string>, development: bool) {
    (email.Some? && email.value in admins) || development
  }

  /** The role the `session` callback assigns: 'admin' for an allow-listed email (a missing one read as ''), else 'user'. */
  function SessionRole(admins: seq<string>, email: Option<string>): (r: string)
    ensures r == "admin" || r == "user"
    ensures r == "admin" <==> OrEmpty(email) in admins
  {
    if OrEmpty(email) in admins then "admin" else "user"
  }

  /**
   * The `session` callback: sets `session.user.role` from the allow-list,
   * whatever role the sign-in produced; a session without a user is left as
   * it is.
   */
  method SessionCallback(session: Session, admins: seq<string>)
    modifies session.user
    ensures session.user == old(session.user)
    ensures session.user != null ==>
      && session.user.role == Some(SessionRole(admins, session.user.email))
      && session.user.id == old(session.user.id)
      && session.user.name == old(session.user.name)
      && session.user.email == old(session.user.email)
  {
    if session.user != null {
      session.user.role := Some(SessionRole(admins, session.user.email));
    }
  }

  /** Outside development, every user let in has an allow-listed email, so the session role is 'admin'. */
  lemma ProductionSessionsAreAdmin(admins: seq<string>, email: Option<string>)
    requires SignInAllowed(admins, email, false)
    ensures SessionRole(admins, email) == "admin"
  {
  }

  /**
   * A credentials sign-in outside development completes exactly when the
   * form matches the two variables and `ADMIN_EMAIL` is on the allow-list;
   * the session then carries the role 'admin'.
   */
  lemma CredentialsSignIn(credentials: Credentials, adminEmail: string, adminPassword: string, env: Option<string>)
    ensures var u := Authorize(Some(credentials), Some(adminEmail), Some(adminPassword));
      (u.Some? && SignInAllowed(AdminEmails(env), u.value.email, false)) <==>
      (credentials == Credentials(Some(adminEmail), Some(adminPassword)) && adminEmail in AdminEmails(env))
    ensures var u := Authorize(Some(credentials), Some(adminEmail), Some(adminPassword));
      u.Some? && SignInAllowed(AdminEmails(env), u.value.email, false) ==>
      SessionRole(AdminEmails(env), u.value.email) == "admin"
  {
  }

  /**
   * An empty entry on the allow-list (a trailing or doubled comma) makes
   * every session whose user has no email an admin session.
   */
  lemma EmptyEntryAdmitsEmailless(entries: seq<string>)
    requires |entries| >= 1 && Join(entries, ",") != ""
    requires forall k :: 0 <= k < |entries| ==> ',' !in entries[k]
    requires "" in entries
    ensures SessionRole(AdminEmails(Some(Join(entries, ","))), None) == "admin"
  {
    AdminEmailsOf(entries);
  }
}
