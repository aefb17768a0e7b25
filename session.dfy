/**
 * The objects the authentication library hands to the panel's callbacks: the
 * user a credentials check returns, the session and its `user`, and the
 * signed token. The library itself (providers, signing, cookies) is not part
 * of this model; these are the fields the callbacks read and write.
 */
module NextAuth {
  import opened Base

  /** Sign-in form fields; a field the form did not send is `None`. */
  datatype Credentials = Credentials(email: Option<string>, password: Option<string>)

  /** The user object a credentials `authorize` resolves to. */
  datatype AuthUser = AuthUser(id: string, name: string, email: Option<string>, role: string)

  /** `session.user`, whose fields the session callbacks overwrite in place. */
  class SessionUser {
    var id: Option<string>
    var name: Option<string>
    var email: Option<string>
    var role: Option<string>

    constructor(id: Option<string>, name: Option<string>, email: Option<string>, role: Option<string>)
      ensures this.id == id && this.name == name && this.email == email && this.role == role
    {
      this.id := id;
      this.name := name;
      this.email := email;
      this.role := role;
    }
  }

  /** A session; `user` may be missing. */
  class Session {
    var user: SessionUser?

    constructor(user: SessionUser?)
      ensures this.user == user
    {
      this.user := user;
    }
  }

  /** The decoded token, which the `jwt` callback extends in place. */
  class Token {
    var id: Option<string>
    var role: Option<string>

    constructor(id: Option<string>, role: Option<string>)
      ensures this.id == id && this.role == role
    {
      this.id := id;
      this.role := role;
    }
  }
}
