/** The application state every handler works on: the "user" and "item"
    collections of the database, the files under `public/profile-images`,
    and the collection operations the handlers call. */
module Store {
  import opened Common
  import opened Records

  /** The error text the database reports when an insertion would break the
      unique index on `field` (default index name `<field>_1`); it quotes
      the offending value. */
  function DuplicateKeyError(field: string, value: string): string {
    DuplicateKeyPrefix + field + KeyQuote(field) + value + "\" }"
  }

  const DuplicateKeyPrefix: string :=
    "E11000 " + "duplicate" + " key error collection: wad-01.user index: "

  function KeyQuote(field: string): string {
    "_1 dup key: { " + field + ": \""
  }

  /** The unique-index check of an insertion: username first, then email. */
  function IndexViolation(users: seq<User>, doc: User): Option<string> {
    if FindOne(users, ByUsername(doc.username)).Some? then
      Some(DuplicateKeyError("username", doc.username))
    else if FindOne(users, ByEmail(doc.email)).Some? then
      Some(DuplicateKeyError("email", doc.email))
    else
      None
  }

  /** Which of a handler's two database steps throws, if any; the message
      is only logged. A failure to connect counts as the first step. */
  datatype DbFault = NoFailure | FirstCallFails(msg: string) | SecondCallFails(msg: string)

  /** Reference under which an uploaded image is served and stored:
      `/profile-images/<filename>`, relative to `public/`. */
  function ImageRef(filename: string): string {
    "/profile-images/" + filename
  }

  class Database {
    var users: seq<User>
    var items: seq<Item>
    /** Stored image files, by their reference path (see `ImageRef`). */
    var files: set<string>
    /** Ids are never reused: every stored id is below the next one. */
    var nextUserId: nat
    var nextItemId: nat
    /** How many times `ensureIndexes` has run. */
    var indexRuns: nat

    ghost predicate Valid()
      reads this
    {
      UniqueKeys(users) &&
      (forall u :: u in users ==> u.id < nextUserId) &&
      (forall it :: it in items ==> it.id < nextItemId) &&
      (forall i, j :: 0 <= i < j < |items| ==> items[i].id != items[j].id)
    }

    constructor ()
      ensures Valid()
      ensures users == [] && items == [] && files == {} && indexRuns == 0
    {
      users, items, files := [], [], {};
      nextUserId, nextItemId, indexRuns := 0, 0, 0;
    }

    /** `insertOne` on the user collection: rejected by a unique index, or
        stored under a fresh `_id` that is returned. */
    method InsertOneUser(doc: User) returns (r: Result<nat>)
      requires Valid()
      modifies this`users, this`nextUserId
      ensures Valid()
      ensures IndexViolation(old(users), doc).Some? ==>
        r == Err(IndexViolation(old(users), doc).value) && users == old(users) &&
        nextUserId == old(nextUserId)
      ensures IndexViolation(old(users), doc).None? ==>
        r == Ok(old(nextUserId)) &&
        users == old(users) + [doc.(id := old(nextUserId))] &&
        nextUserId == old(nextUserId) + 1 &&
        (forall u :: u in old(users) ==> u.id != r.value)
    {
      var violation := IndexViolation(users, doc);
      if violation.Some? {
        return Err(violation.value);
      }
      var stored := doc.(id := nextUserId);
      users := users + [stored];
      nextUserId := nextUserId + 1;
      r := Ok(stored.id);
    }

    /** `updateOne({ email }, { $set: { profileImage: image } })` */
    method UpdateProfileImage(email: string, image: Option<string>)
      requires Valid()
      modifies this`users
      ensures Valid()
      ensures users == SetImage(old(users), email, image)
    {
      SetImageKeepsKeys(users, email, image);
      users := SetImage(users, email, image);
    }

    /** `fs.writeFile` of an image. */
    method WriteFile(path: string)
      modifies this`files
      ensures files == old(files) + {path}
    {
      files := files + {path};
    }

    /** `fs.rm`: fails, changing nothing, when the file is missing. */
    method RemoveFile(path: string) returns (removed: bool)
      modifies this`files
      ensures removed == (path in old(files))
      ensures files == old(files) - {path}
    {
      removed := path in files;
      files := files - {path};
    }

    /** `insertOne` on the item collection; returns the new `_id`. */
    method InsertOneItem(doc: Item) returns (id: nat)
      requires Valid()
      modifies this`items, this`nextItemId
      ensures Valid()
      ensures id == old(nextItemId)
      ensures items == old(items) + [doc.(id := id)]
      ensures forall it :: it in old(items) ==> it.id != id
    {
      id := nextItemId;
      items := items + [doc.(id := id)];
      nextItemId := nextItemId + 1;
    }

    /** `ensureIndexes()`: (re)creates the unique indexes. Their effect is
        already part of `Valid`; the model records that the call happened. */
    method EnsureIndexes()
      modifies this`indexRuns
      ensures indexRuns == old(indexRuns) + 1
    {
      indexRuns := indexRuns + 1;
    }
  }
}
