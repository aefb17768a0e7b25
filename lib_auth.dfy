/**
 * The database-backed credentials options (`lib/auth.ts`): `authorize`
 * looks the user up by email and compares the stored password; the `jwt`
 * and `session` callbacks carry the user's id and role from sign-in into
 * the token and from the token into the session.
 */
module LibAuth {
  import opened Base
  import opened Seqs
  import opened NextAuth
  import opened UserModel

  function WithEmail(email: string): User -> bool {
    (u: User) => u.email == email
  }

  /**
   * `authorize`: `None` for a missing email or password, for an unknown
   * email, for a wrong password, and when the store cannot be reached
   * (`users` is `None`); otherwise the first user with that email.
   */
  function Authorize(credentials: Option<Credentials>, users: Option<seq<User>>): (r: Option<AuthUser>)
    ensures credentials.None? || !Truthy(credentials.value.email) || !Truthy(credentials.value.password) ==> r.None?
    ensures users.None? ==> r.None?
    ensures r.Some? ==>
      exists i :: 0 <= i < |users.value| && users.value[i].email == credentials.value.email.value
        && (forall j :: 0 <= j < i ==> users.value[j].email != credentials.value.email.value)
        && users.value[i].password == credentials.value.password
        && r.value == AuthUser(users.value[i].id, users.value[i].name, Some(users.value[i].email), users.value[i].role)
  {
    if credentials.None? || !Truthy(credentials.value.email) || !Truthy(credentials.value.password) then None
    else if users.None? then None
    else
      match Find(users.value, WithEmail(credentials.value.email.value))
      case None => None
      case Some(user) =>
        if credentials.value.password != user.password then None
        else Some(AuthUser(user.id, user.name, Some(user.email), user.role))
  }

  /**
   * Under the unique index on `email`, a sign-in succeeds exactly when some
   * stored user has that email and exactly that password.
   */
  lemma AuthorizeIff(email: string, password: string, users: seq<User>)
    requires UniqueEmails(users) && email != "" && password != ""
    ensures Authorize(Some(Credentials(Some(email), Some(password))), Some(users)).Some? <==>
      exists i :: 0 <= i < |users| && users[i].email == email && users[i].password == Some(password)
  {
    if exists i :: 0 <= i < |users| && users[i].email == email && users[i].password == Some(password) {
      var i :| 0 <= i < |users| && users[i].email == email && users[i].password == Some(password);
      FindUnique(users, i);
    }
  }

  /** Under the unique index, looking a stored user's email up finds that user. */
  lemma FindUnique(users: seq<User>, i: nat)
    requires UniqueEmails(users) && i < |users|
    ensures Find(users, WithEmail(users[i].email)) == Some(users[i])
  {
    var f := Find(users, WithEmail(users[i].email));
    assert WithEmail(users[i].email)(users[i]);
    var k :| 0 <= k < |users| && users[k] == f.value && WithEmail(users[i].email)(users[k])
      && forall j :: 0 <= j < k ==> !WithEmail(users[i].email)(users[j]);
    assert k == i;
  }

  /** A user without a stored password can never sign in. */
  lemma NoPasswordNoSignIn(credentials: Option<Credentials>, users: seq<User>, i: nat)
    requires UniqueEmails(users) && i < |users| && users[i].password.None?
    requires credentials.Some? && credentials.value.email == Some(users[i].email)
    ensures Authorize(credentials, Some(users)).None?
  {
  }

  /** The `jwt` callback: on sign-in the user's id and role go into the token; later calls leave it as it is. */
  method Jwt(token: Token, user: Option<AuthUser>)
    modifies token
    ensures user.Some? ==> token.id == Some(user.value.id) && token.role == Some(user.value.role)
    ensures user.None? ==> token.id == old(token.id) && token.role == old(token.role)
  {
    if user.Some? {
      token.id := Some(user.value.id);
      token.role := Some(user.value.role);
    }
  }

  /** The `session` callback: with a token and a session user, the token's id and role overwrite the user's. */
  method SessionCallback(session: Session, token: Token?)
    modifies session.user
    ensures session.user == old(session.user)
    ensures token != null && session.user != null ==>
      session.user.id == token.id && session.user.role == token.role
        && session.user.name == old(session.user.name) && session.user.email == old(session.user.email)
    ensures token == null && session.user != null ==>
      session.user.id == old(session.user.id) && session.user.role == old(session.user.role)
        && session.user.name == old(session.user.name) && session.user.email == old(session.user.email)
  {
    if token != null && session.user != null {
      session.user.id := token.id;
      session.user.role := token.role;
    }
  }

  /**
   * Sign-in followed by a session read: the session ends up with the id and
   * the stored role of the user `authorize` found.
   */
  method SignInThenSession(token: Token, session: Session, user: AuthUser)
    requires session.user != null
    modifies token, session.user
    ensures session.user == old(session.user)
    ensures session.user.id == Some(user.id) && session.user.role == Some(user.role)
    ensures token.id == Some(user.id) && token.role == Some(user.role)
  {
    Jwt(token, Some(user));
    SessionCallback(session, token);
  }
}
