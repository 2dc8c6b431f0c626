/** `/api/auth/login`: a single read of the user collection and a password
    comparison. It is a function of the table, so it cannot change it. */
module LoginRoute {
  import opened Common
  import opened Records

  /** The JSON body of a login request. */
  datatype Credentials = Credentials(username: Option<string>, password: Option<string>)

  const InvalidCredentials: Response := Response(401, Message("Invalid username or password"))

  /** POST /api/auth/login. `body` is `None` when the request body is not
      valid JSON, or is `null` (the destructuring throws); any other
      non-object body is `Credentials(None, None)`; `fault` is the message of a
      failed connection or `findOne`; `compare` stands for `bcrypt.compare`. */
  function Login(users: seq<User>, body: Option<Credentials>, fault: Option<string>,
                 compare: (string, string) -> bool): (r: Response)
    ensures body.None? ==> r == Response(500, Message("Server error"))
    ensures body.Some? && (Falsy(body.value.username) || Falsy(body.value.password)) ==>
      r == Response(400, Message("Username and password are required"))
    ensures body.Some? && !Falsy(body.value.username) && !Falsy(body.value.password) && fault.Some? ==>
      r == Response(500, Message("Server error"))
    ensures r.status in {200, 400, 401, 500}
    // both credential failures give one and the same answer
    ensures r.status == 401 ==> r == InvalidCredentials
    ensures r.status == 200 ==>
      exists u :: u in users && u.username == body.value.username.value &&
                  compare(body.value.password.value, u.passwordHash) &&
                  r == Response(200, LoggedIn(WithoutPassword(u), "Login successful"))
  {
    match body
    case None => Response(500, Message("Server error"))
    case Some(Credentials(username, password)) =>
      if Falsy(username) || Falsy(password) then
        Response(400, Message("Username and password are required"))
      else if fault.Some? then
        Response(500, Message("Server error"))
      else
        match FindOne(users, ByUsername(username.value))
        case None => InvalidCredentials
        case Some(user) =>
          if !compare(password.value, user.passwordHash) then InvalidCredentials
          else Response(200, LoggedIn(WithoutPassword(user), "Login successful"))
  }

  /** In a table with unique usernames a well-formed request for `name`
      succeeds exactly when the stored user with that name has a matching
      password, and then answers that user without its password; an
      unknown name is refused like a wrong password. */
  lemma {:induction false} LoginDecision(users: seq<User>, name: string, password: string,
                                         compare: (string, string) -> bool)
    requires UniqueKeys(users)
    requires name != "" && password != ""
    ensures forall u :: u in users && u.username == name ==>
      Login(users, Some(Credentials(Some(name), Some(password))), None, compare) ==
        if compare(password, u.passwordHash)
        then Response(200, LoggedIn(WithoutPassword(u), "Login successful"))
        else InvalidCredentials
    ensures (forall u :: u in users ==> u.username != name) ==>
      Login(users, Some(Credentials(Some(name), Some(password))), None, compare) == InvalidCredentials
  {
    forall u | u in users && u.username == name
      ensures Login(users, Some(Credentials(Some(name), Some(password))), None, compare) ==
        if compare(password, u.passwordHash)
        then Response(200, LoggedIn(WithoutPassword(u), "Login successful"))
        else InvalidCredentials
    {
      var k :| 0 <= k < |users| && users[k] == u;
      FindOneSelectsOwner(users, k, ByUsername(name));
    }
  }

  /** No user enumeration: asking for a name nobody has gets exactly the
      answer a stored user gets for a wrong password. */
  lemma UnknownUserAnsweredLikeWrongPassword(users: seq<User>, known: User, unknown: string,
                                             password: string, compare: (string, string) -> bool)
    requires UniqueKeys(users)
    requires known in users && known.username != "" && password != ""
    requires !compare(password, known.passwordHash)
    requires unknown != "" && forall u :: u in users ==> u.username != unknown
    ensures Login(users, Some(Credentials(Some(unknown), Some(password))), None, compare) ==
            Login(users, Some(Credentials(Some(known.username), Some(password))), None, compare)
  {
    LoginDecision(users, unknown, password, compare);
    LoginDecision(users, known.username, password, compare);
  }
}
