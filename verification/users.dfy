/**
 * A user row as the services see it: an identifier and the stored portal
 * credentials, which are a signed token (or nothing).
 */
module Users {
  import opened Wrappers

  /** Portal login, as stored inside the token. */
  datatype Credentials = Credentials(email: string, password: string)

  /** `user.credentials`: no token, or a token whose signature either checks
      (`decoded` holds the credentials) or does not (`decoded` is `None`, and
      decoding it throws). */
  datatype Token = NoToken | Signed(decoded: Option<Credentials>)

  datatype User = User(id: string, credentials: Token)

  /** `user.credentials` is truthy. */
  predicate HasToken(u: User) {
    u.credentials.Signed?
  }
}
