/** The documents of the "user" and "item" collections, the queries the
    handlers run on them, and the HTTP responses the handlers build. */
module Records {
  import opened Common

  /** A document of the "user" collection. `id` is the `_id` the database
      assigns on insertion; `passwordHash` is the bcrypt hash stored under
      the field `password`. */
  datatype User = User(
    id: nat,
    username: string,
    email: string,
    passwordHash: string,
    firstname: Option<string>,
    lastname: Option<string>,
    status: string,
    profileImage: Option<string>)

  /** A user document with its `password` field removed: the only shape in
      which a user leaves a handler. It has no field for the hash, so no
      response can carry one. */
  datatype PublicUser = PublicUser(
    id: nat,
    username: string,
    email: string,
    firstname: Option<string>,
    lastname: Option<string>,
    status: string,
    profileImage: Option<string>)

  /** `const { password, ...rest } = user` */
  function WithoutPassword(u: User): (p: PublicUser)
    ensures WithPassword(p, u.passwordHash) == u
  {
    PublicUser(u.id, u.username, u.email, u.firstname, u.lastname, u.status, u.profileImage)
  }

  /** The inverse of `WithoutPassword`, given the removed field back. */
  function WithPassword(p: PublicUser, passwordHash: string): User {
    User(p.id, p.username, p.email, passwordHash, p.firstname, p.lastname, p.status, p.profileImage)
  }

  /** Removing the password loses exactly that field and nothing else. */
  lemma StripRoundTrip(u: User, p: PublicUser, h: string)
    ensures WithPassword(WithoutPassword(u), u.passwordHash) == u
    ensures WithoutPassword(WithPassword(p, h)) == p
    ensures WithPassword(p, h).passwordHash == h
  {
  }

  /** The filter of a `findOne`/`updateOne` on the user collection:
      `{ username }` or `{ email }`. */
  datatype Key = ByUsername(username: string) | ByEmail(email: string)

  predicate Matches(u: User, key: Key) {
    match key
    case ByUsername(name) => u.username == name
    case ByEmail(email) => u.email == email
  }

  /** Position of the first document the filter selects, or `|users|` when
      none does (documents are visited in insertion order). */
  function FirstMatch(users: seq<User>, key: Key): (i: nat)
    ensures i <= |users|
    ensures i < |users| ==> Matches(users[i], key)
    ensures forall j :: 0 <= j < i ==> !Matches(users[j], key)
  {
    if |users| == 0 then 0
    else if Matches(users[0], key) then 0
    else 1 + FirstMatch(users[1..], key)
  }

  /** `findOne(filter)`: the first matching document, or null. */
  function FindOne(users: seq<User>, key: Key): (r: Option<User>)
    ensures r.Some? ==> r.value in users && Matches(r.value, key)
    ensures r.None? <==> forall u :: u in users ==> !Matches(u, key)
  {
    var i := FirstMatch(users, key);
    if i < |users| then Some(users[i]) else None
  }

  /** The unique indexes on username and email, together with the unique
      `_id`: no two documents share any of the three. */
  predicate UniqueKeys(users: seq<User>) {
    forall i, j :: 0 <= i < j < |users| ==>
      users[i].id != users[j].id &&
      users[i].username != users[j].username &&
      users[i].email != users[j].email
  }

  /** In a table with unique keys, a filter on username or email selects the
      one document that has that username or email. */
  lemma FindOneSelectsOwner(users: seq<User>, k: nat, key: Key)
    requires UniqueKeys(users)
    requires k < |users| && Matches(users[k], key)
    ensures FirstMatch(users, key) == k
    ensures FindOne(users, key) == Some(users[k])
  {
  }

  /** `updateOne({ email }, { $set: { profileImage: image } })`: the first
      document with that email gets the new image reference. */
  function SetImage(users: seq<User>, email: string, image: Option<string>): (r: seq<User>)
    ensures |r| == |users|
    ensures forall i :: 0 <= i < |users| ==>
      r[i] == users[i] || (users[i].email == email && r[i] == users[i].(profileImage := image))
    ensures FindOne(users, ByEmail(email)).None? ==> r == users
    ensures FindOne(users, ByEmail(email)).Some? ==>
      exists i :: 0 <= i < |users| && users[i].email == email && r[i].profileImage == image
  {
    var i := FirstMatch(users, ByEmail(email));
    if i < |users| then users[i := users[i].(profileImage := image)] else users
  }

  /** In a table with unique keys, the update changes the profile image of
      the document with that email and of no other document, and leaves
      every other field as it was. */
  lemma SetImageOnlyTouchesOwner(users: seq<User>, email: string, image: Option<string>)
    requires UniqueKeys(users)
    ensures |SetImage(users, email, image)| == |users|
    ensures forall i :: 0 <= i < |users| && users[i].email != email ==>
      SetImage(users, email, image)[i] == users[i]
    ensures forall i :: 0 <= i < |users| && users[i].email == email ==>
      SetImage(users, email, image)[i] == users[i].(profileImage := image)
  {
    var r := SetImage(users, email, image);
    forall i | 0 <= i < |users| && users[i].email == email
      ensures r[i] == users[i].(profileImage := image)
    {
      FindOneSelectsOwner(users, i, ByEmail(email));
    }
  }

  /** The image update keeps ids, usernames and emails, hence their
      uniqueness. */
  lemma SetImageKeepsKeys(users: seq<User>, email: string, image: Option<string>)
    requires UniqueKeys(users)
    ensures UniqueKeys(SetImage(users, email, image))
    ensures forall i :: 0 <= i < |users| ==>
      var u := SetImage(users, email, image)[i];
      u.id == users[i].id && u.username == users[i].username && u.email == users[i].email
  {
  }

  /** Reading the owner back after the update finds the new reference and
      every other field as it was. */
  lemma {:induction false} SetImageThenFind(users: seq<User>, email: string, image: Option<string>)
    requires UniqueKeys(users)
    ensures FindOne(SetImage(users, email, image), ByEmail(email)).Some? == FindOne(users, ByEmail(email)).Some?
    ensures FindOne(users, ByEmail(email)).Some? ==>
      FindOne(SetImage(users, email, image), ByEmail(email)) ==
        Some(FindOne(users, ByEmail(email)).value.(profileImage := image))
  {
    var i := FirstMatch(users, ByEmail(email));
    if i < |users| {
      SetImageKeepsKeys(users, email, image);
      FindOneSelectsOwner(SetImage(users, email, image), i, ByEmail(email));
    }
  }

  /** Principal decoded from a verified token; only its email is used. */
  datatype Principal = Principal(email: string)

  /** A JSON scalar, as a request may send for an item's price. Numbers are
      integers here; see README. */
  datatype Json = Null | Bool(b: bool) | Number(n: int) | Text(s: string)

  /** A document of the "item" collection. `itemPrice` keeps the value the
      request sent (the `Number(...)` conversion is not modelled). */
  datatype Item = Item(id: nat, itemName: string, itemCategory: string, itemPrice: Json)

  /** `findOne({ _id: id })` on the item collection. */
  function FindItem(items: seq<Item>, id: nat): (r: Option<Item>)
    ensures r.Some? ==> r.value in items && r.value.id == id
    ensures r.None? ==> forall it :: it in items ==> it.id != id
  {
    if |items| == 0 then None
    else if items[0].id == id then Some(items[0])
    else FindItem(items[1..], id)
  }

  /** A response body: `Message` is the JSON object `{ message }`,
      `PlainText` a non-JSON text body; the others are the JSON payloads of
      the successful cases. */
  datatype Body =
    | Message(text: string)
    | PlainText(text: string)
    | UserList(users: seq<PublicUser>)
    | Profile(user: PublicUser)
    | LoggedIn(user: PublicUser, message: string)
    | InsertedId(id: nat)
    | ImageUrl(url: string)
    | ItemList(items: seq<Item>)
    | CreatedItem(created: Option<Item>)

  datatype Response = Response(status: nat, body: Body)
}
