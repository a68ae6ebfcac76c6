/** Sign-in and the propagation of the signed-in user into the session,
    src/lib/auth.ts. Password hashing is the `matches` parameter (bcrypt's
    `compare`). */
module Auth {
  import opened Base
  import opened Store

  /** The submitted form; a field is absent when it was not sent. */
  datatype Credentials = Credentials(email: Option<string>, password: Option<string>)

  datatype AuthError = InvalidCredentials | UserNotFound | InvalidPassword

  datatype AuthResult = SignedIn(profile: Profile) | Refused(error: AuthError)

  /** `authorize`: both fields must be present; the user is looked up by
      email; the password must match the stored hash; the answer is the
      user's profile. */
  method Authorize(users: map<Id, User>, creds: Credentials, matches: (string, string) -> bool) returns (r: AuthResult)
    ensures !Truthy(creds.email) || !Truthy(creds.password) ==> r == Refused(InvalidCredentials)
    ensures Truthy(creds.email) && Truthy(creds.password) ==>
      (r == Refused(UserNotFound) <==> !EmailTaken(users, creds.email.value))
    ensures r.SignedIn? ==>
      Truthy(creds.email) && Truthy(creds.password)
      && exists k :: k in users && users[k].email == creds.email.value
                  && matches(creds.password.value, users[k].passwordHash)
                  && r.profile == ProfileOf(users[k])
    // with unique emails the user found is the only candidate
    ensures Truthy(creds.email) && Truthy(creds.password) && UniqueEmails(users) ==>
      forall k :: k in users && users[k].email == creds.email.value ==>
        if matches(creds.password.value, users[k].passwordHash)
        then r == SignedIn(ProfileOf(users[k]))
        else r == Refused(InvalidPassword)
  {
    if !Truthy(creds.email) || !Truthy(creds.password) {
      return Refused(InvalidCredentials);
    }
    var email, password := creds.email.value, creds.password.value;
    if !EmailTaken(users, email) {
      return Refused(UserNotFound);
    }
    var k :| k in users && users[k].email == email;
    var user := users[k];
    if !matches(password, user.passwordHash) {
      return Refused(InvalidPassword);
    }
    return SignedIn(ProfileOf(user));
  }

  /** The JWT carried between requests; only the fields the callbacks touch
      plus the ones the provider fills in. */
  datatype Token = Token(name: Option<string>, email: Option<string>,
                         role: Option<Role>, id: Option<Id>, companyId: Option<Id>)

  /** `jwt` callback: on sign-in the user's role, id and company are copied
      into the token; on every later call the token passes through. */
  function JwtCallback(token: Token, user: Option<Profile>): (t: Token)
    ensures user.None? ==> t == token
    ensures user.Some? ==> t.role == Some(user.value.role) && t.id == Some(user.value.id)
                           && t.companyId == user.value.companyId
    ensures t.name == token.name && t.email == token.email
  {
    if user.Some? then token.(role := Some(user.value.role), id := Some(user.value.id), companyId := user.value.companyId)
    else token
  }

  datatype SessionUser = SessionUser(name: Option<string>, email: Option<string>,
                                     role: Option<Role>, id: Option<Id>, companyId: Option<Id>)

  datatype Session = Session(user: SessionUser, expires: string)

  /** `session` callback: the token's role, id and company overwrite the
      session user's. */
  function SessionCallback(session: Session, token: Option<Token>): (r: Session)
    ensures token.Some? ==> r.user.role == token.value.role && r.user.id == token.value.id
                            && r.user.companyId == token.value.companyId
    ensures token.Some? ==> r.user.name == session.user.name && r.user.email == session.user.email
                            && r.expires == session.expires
    ensures token.None? ==> r == session
  {
    if token.Some? then
      session.(user := session.user.(role := token.value.role, id := token.value.id, companyId := token.value.companyId))
    else session
  }

  /** After signing in, the session of the sign-in request and of a later
      request (whose `jwt` call has no user) carry exactly the user's id,
      role and company; a global salesman keeps an absent company. */
  lemma SignInReachesSession(u: User, token: Token, session: Session)
    ensures var signedIn := JwtCallback(token, Some(ProfileOf(u)));
            var later := JwtCallback(signedIn, None);
            && SessionCallback(session, Some(signedIn)).user.id == Some(u.id)
            && SessionCallback(session, Some(signedIn)).user.role == Some(u.role)
            && SessionCallback(session, Some(signedIn)).user.companyId == u.companyId
            && SessionCallback(session, Some(later)).user == SessionCallback(session, Some(signedIn)).user
  {
  }
}
