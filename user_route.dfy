/** `/api/user`: registration (POST) and the user list (GET). */
module UserRoute {
  import opened Common
  import opened Records
  import opened Store

  /** The JSON body of a registration request. */
  datatype SignupRequest = SignupRequest(
    username: Option<string>,
    email: Option<string>,
    password: Option<string>,
    firstname: Option<string>,
    lastname: Option<string>)

  /** The message shown for a failed insertion, chosen from the failure's
      text alone: a duplicate on username wins over one on email, and any
      other failure is shown as the empty string. */
  function DisplayErrorMessage(errorMsg: string): (display: string)
    ensures display == "Duplicate Username!" <==>
      Contains(errorMsg, "duplicate") && Contains(errorMsg, "username")
    ensures display == "Duplicate Email!" <==>
      Contains(errorMsg, "duplicate") && !Contains(errorMsg, "username") && Contains(errorMsg, "email")
    ensures display == "" <==>
      !(Contains(errorMsg, "duplicate") && (Contains(errorMsg, "username") || Contains(errorMsg, "email")))
  {
    if Contains(errorMsg, "duplicate") then
      if Contains(errorMsg, "username") then "Duplicate Username!"
      else if Contains(errorMsg, "email") then "Duplicate Email!"
      else ""
    else ""
  }

  /** The fixed head of a unique-index error calls it a duplicate. */
  lemma DuplicateKeyPrefixMentionsDuplicate()
    ensures Contains(DuplicateKeyPrefix, "duplicate")
  {
    ContainsInfix("E11000 ", "duplicate", " key error collection: wad-01.user index: ");
  }

  /** Every unique-index error names itself a duplicate and names the
      index's field. */
  lemma DuplicateKeyErrorMentions(field: string, value: string)
    ensures Contains(DuplicateKeyError(field, value), "duplicate")
    ensures Contains(DuplicateKeyError(field, value), field)
  {
    var rest := KeyQuote(field) + value + "\" }";
    assert DuplicateKeyError(field, value) == DuplicateKeyPrefix + field + rest;
    DuplicateKeyPrefixMentionsDuplicate();
    ContainsWithin([], DuplicateKeyPrefix, field + rest, "duplicate");
    assert [] + DuplicateKeyPrefix + (field + rest) == DuplicateKeyPrefix + field + rest;
    ContainsInfix(DuplicateKeyPrefix, field, rest);
  }

  /** A collision on the username index is always reported as such. */
  lemma UsernameCollisionReported(value: string)
    ensures DisplayErrorMessage(DuplicateKeyError("username", value)) == "Duplicate Username!"
  {
    DuplicateKeyErrorMentions("username", value);
  }

  /** A collision on the email index is reported as a duplicate, never as
      the empty message; but since the text quotes the email, an email
      that contains "username" is reported as a duplicate username. */
  lemma EmailCollisionReported(value: string)
    ensures DisplayErrorMessage(DuplicateKeyError("email", value)) in {"Duplicate Username!", "Duplicate Email!"}
    ensures Contains(value, "username") ==>
      DisplayErrorMessage(DuplicateKeyError("email", value)) == "Duplicate Username!"
  {
    DuplicateKeyErrorMentions("email", value);
    if Contains(value, "username") {
      ContainsWithin(DuplicateKeyPrefix + "email" + KeyQuote("email"), value, "\" }", "username");
    }
  }

  /** POST /api/user. `req` is the parsed JSON body (a body that is not
      JSON, or is `null`, throws before the `try`; see README).
      `hash` stands for `bcrypt.hash(password, 10)`;
      `fault` is the message of a failure of the connection or of the
      insertion other than a unique-index violation. */
  method Post(db: Database, req: SignupRequest, hash: string -> string, fault: Option<string>)
    returns (r: Response)
    requires db.Valid()
    modifies db`users, db`nextUserId
    ensures db.Valid()
    // validation: nothing is inserted
    ensures Falsy(req.username) || Falsy(req.email) || Falsy(req.password) ==>
      r == Response(400, Message("Missing mandatory data")) && db.users == old(db.users)
    // every failure is a 400 and leaves the table as it was
    ensures r.status in {200, 400}
    ensures r.status == 400 ==> db.users == old(db.users) && r.body.Message?
    ensures !(Falsy(req.username) || Falsy(req.email) || Falsy(req.password)) && fault.Some? ==>
      r == Response(400, Message(DisplayErrorMessage(fault.value)))
    // a taken username or email is reported by the classification rule
    ensures (!(Falsy(req.username) || Falsy(req.email) || Falsy(req.password)) && fault.None? &&
             FindOne(old(db.users), ByUsername(req.username.value)).Some?) ==>
      r == Response(400, Message("Duplicate Username!"))
    ensures (!(Falsy(req.username) || Falsy(req.email) || Falsy(req.password)) && fault.None? &&
             FindOne(old(db.users), ByEmail(req.email.value)).Some?) ==>
      r.status == 400 && r.body.text in {"Duplicate Username!", "Duplicate Email!"}
    // success: exactly one new record, holding the hash, answered by its id only
    ensures r.status == 200 <==>
      !(Falsy(req.username) || Falsy(req.email) || Falsy(req.password)) && fault.None? &&
      FindOne(old(db.users), ByUsername(req.username.value)).None? &&
      FindOne(old(db.users), ByEmail(req.email.value)).None?
    ensures r.status == 200 ==>
      r.body == InsertedId(old(db.nextUserId)) &&
      db.users == old(db.users) + [User(old(db.nextUserId), req.username.value, req.email.value,
                                        hash(req.password.value), req.firstname, req.lastname,
                                        "ACTIVE", None)]
  {
    if Falsy(req.username) || Falsy(req.email) || Falsy(req.password) {
      return Response(400, Message("Missing mandatory data"));
    }
    if fault.Some? {
      return Response(400, Message(DisplayErrorMessage(fault.value)));
    }
    var doc := User(0, req.username.value, req.email.value, hash(req.password.value),
                    req.firstname, req.lastname, "ACTIVE", None);
    var result := db.InsertOneUser(doc);
    match result
    case Ok(id) =>
      r := Response(200, InsertedId(id));
    case Err(errorMsg) =>
      if FindOne(old(db.users), ByUsername(doc.username)).Some? {
        UsernameCollisionReported(doc.username);
      } else {
        EmailCollisionReported(doc.email);
      }
      r := Response(400, Message(DisplayErrorMessage(errorMsg)));
  }

  /** GET /api/user: every stored user, in order, without its password. */
  function List(users: seq<User>): (r: Response)
    ensures r.status == 200 && r.body.UserList?
    ensures |r.body.users| == |users|
    ensures forall i :: 0 <= i < |users| ==>
      WithPassword(r.body.users[i], users[i].passwordHash) == users[i]
  {
    Response(200, UserList(seq(|users|, i requires 0 <= i < |users| => WithoutPassword(users[i]))))
  }
}
