/** `/api/user/upload-profile-image`: replacing (POST) and clearing (DELETE)
    the signed-in user's profile image. Both work step by step on the
    stored files and on the user collection. */
module ProfileImageRoute {
  import opened Common
  import opened Records
  import opened Store

  const AllowedTypes: seq<string> := ["image/jpeg", "image/png", "image/gif", "image/webp"]

  /** What `formData.get("file")` yields: nothing, a plain string value, or
      an uploaded file with its original name and declared MIME type. */
  datatype FormField = NoField | TextValue(text: string) | FileValue(name: string, mimeType: string)

  /** An upload request: its `content-type` header (`None` when absent) and
      the "file" entry of its body, or `None` when reading the body as
      multipart form data throws. */
  datatype UploadRequest = UploadRequest(contentType: Option<string>, form: Option<FormField>)

  /** `parseMultipartFormData`: the form, provided the header announces
      multipart form data and the body can be read as such. */
  function ParseMultipartFormData(req: UploadRequest): (r: Option<FormField>)
    ensures r.Some? <==>
      req.contentType.Some? && StartsWith(req.contentType.value, "multipart/form-data") && req.form.Some?
    ensures r.Some? ==> r == req.form
  {
    var contentType := if req.contentType.Some? then req.contentType.value else "";
    if !StartsWith(contentType, "multipart/form-data") then None else req.form
  }

  /** `name.split(".").pop()`: the text after the last dot, or the whole
      name when it has none. */
  function Extension(name: string): (ext: string)
    ensures '.' !in ext
    ensures |ext| <= |name| && ext == name[|name| - |ext|..]
    ensures |ext| < |name| ==> name[|name| - |ext| - 1] == '.'
    ensures '.' !in name ==> ext == name
  {
    if |name| == 0 then ""
    else if name[|name| - 1] == '.' then ""
    else Extension(name[..|name| - 1]) + [name[|name| - 1]]
  }

  /** Whatever precedes the last dot, the extension is what follows it. */
  lemma {:induction false} ExtensionAfterDot(stem: string, ext: string)
    requires '.' !in ext
    ensures Extension(stem + "." + ext) == ext
    decreases |ext|
  {
    var name := stem + "." + ext;
    if |ext| > 0 {
      var shorter := ext[..|ext| - 1];
      assert name[..|name| - 1] == stem + "." + shorter;
      ExtensionAfterDot(stem, shorter);
      assert ext == shorter + [ext[|ext| - 1]];
    }
  }

  /** The name the upload is saved under: a fresh uuid, a dot, and the
      original name's extension. */
  function StoredName(uuid: string, originalName: string): (name: string)
    ensures StartsWith(name, uuid + ".")
    ensures Extension(name) == Extension(originalName)
  {
    ExtensionAfterDot(uuid, Extension(originalName));
    uuid + "." + Extension(originalName)
  }

  /** The saved file keeps the extension of the uploaded one. */
  lemma StoredNameKeepsExtension(uuid: string, originalName: string)
    ensures Extension(ImageRef(StoredName(uuid, originalName))) == Extension(originalName)
    ensures StartsWith(ImageRef(StoredName(uuid, originalName)), ImageRef(uuid + "."))
  {
    var ext := Extension(originalName);
    var name := StoredName(uuid, originalName);
    assert name == uuid + "." + ext;
    var ref := ImageRef(name);
    assert ref == ("/profile-images/" + uuid) + "." + ext;
    ExtensionAfterDot("/profile-images/" + uuid, ext);
    assert ref == ImageRef(uuid + ".") + ext;
  }

  /** `profile && profile.profileImage`: the image reference of the user
      with that email, when there is one and it is not empty. */
  function CurrentImage(users: seq<User>, email: string): (image: Option<string>)
    ensures image.Some? ==>
      image.value != "" && exists u :: u in users && u.email == email && u.profileImage == image
    ensures image.None? <==>
      FindOne(users, ByEmail(email)).None? || Falsy(FindOne(users, ByEmail(email)).value.profileImage)
  {
    match FindOne(users, ByEmail(email))
    case None => None
    case Some(profile) =>
      if profile.profileImage.Some? && profile.profileImage.value != "" then profile.profileImage else None
  }

  /** The files left once the current image, if any, has been removed. */
  function WithoutImage(files: set<string>, image: Option<string>): set<string> {
    if image.Some? then files - {image.value} else files
  }

  /** `uuidv4()` returned a name that no stored reference is built from. */
  predicate UuidUnused(users: seq<User>, uuid: string) {
    forall u :: u in users && u.profileImage.Some? ==> !StartsWith(u.profileImage.value, ImageRef(uuid + "."))
  }

  /** Every user whose email differs from `email` is as it was. */
  predicate OnlyOwnerChanged(before: seq<User>, after: seq<User>, email: string) {
    |after| == |before| &&
    forall i :: 0 <= i < |before| && before[i].email != email ==> after[i] == before[i]
  }

  /** The fresh name never collides with the image being replaced. */
  lemma FreshNameIsNotCurrent(users: seq<User>, email: string, uuid: string, originalName: string)
    requires UuidUnused(users, uuid)
    ensures CurrentImage(users, email) != Some(ImageRef(StoredName(uuid, originalName)))
  {
    var found := FindOne(users, ByEmail(email));
    if found.Some? && found.value.profileImage.Some? {
      var ref := ImageRef(StoredName(uuid, originalName));
      StoredNameKeepsExtension(uuid, originalName);
      assert !StartsWith(found.value.profileImage.value, ImageRef(uuid + "."));
      assert StartsWith(ref, ImageRef(uuid + "."));
    }
  }

  /** The checks POST makes before writing anything, in order: `None` lets
      the request through, otherwise the refusal. */
  function Rejection(principal: Option<Principal>, req: UploadRequest): (refusal: Option<Response>)
    ensures principal.None? ==> refusal == Some(Response(401, Message("Unauthorized")))
    ensures principal.Some? && ParseMultipartFormData(req).None? ==>
      refusal == Some(Response(400, Message("Invalid form data")))
    ensures principal.Some? && ParseMultipartFormData(req).Some? && !ParseMultipartFormData(req).value.FileValue? ==>
      refusal == Some(Response(400, Message("No file uploaded")))
    ensures principal.Some? && ParseMultipartFormData(req).Some? && ParseMultipartFormData(req).value.FileValue? &&
            ParseMultipartFormData(req).value.mimeType !in AllowedTypes ==>
      refusal == Some(Response(400, Message("Only image files are allowed")))
    ensures refusal.None? <==>
      principal.Some? && req.contentType.Some? && StartsWith(req.contentType.value, "multipart/form-data") &&
      req.form.Some? && req.form.value.FileValue? && req.form.value.mimeType in AllowedTypes
  {
    if principal.None? then Some(Response(401, Message("Unauthorized")))
    else
      match ParseMultipartFormData(req)
      case None => Some(Response(400, Message("Invalid form data")))
      case Some(file) =>
        if !file.FileValue? then Some(Response(400, Message("No file uploaded")))
        else if file.mimeType !in AllowedTypes then Some(Response(400, Message("Only image files are allowed")))
        else None
  }

  /** The steps of POST after the checks: write the new file, look the user
      up and remove the previous image's file (ignoring a failed removal),
      then record the new reference. */
  method SaveAndLink(db: Database, email: string, ref: string, fault: DbFault) returns (r: Response)
    requires db.Valid()
    requires CurrentImage(db.users, email) != Some(ref)
    modifies db`users, db`files
    ensures db.Valid()
    ensures fault.FirstCallFails? ==>
      r == Response(500, Message("Failed to update user")) &&
      db.users == old(db.users) && db.files == old(db.files) + {ref}
    ensures fault.SecondCallFails? ==>
      r == Response(500, Message("Failed to update user")) &&
      db.users == old(db.users) &&
      db.files == WithoutImage(old(db.files) + {ref}, CurrentImage(old(db.users), email))
    ensures fault.NoFailure? ==>
      r == Response(200, ImageUrl(ref)) &&
      db.files == WithoutImage(old(db.files) + {ref}, CurrentImage(old(db.users), email)) &&
      ref in db.files &&
      (CurrentImage(old(db.users), email).Some? ==> CurrentImage(old(db.users), email).value !in db.files) &&
      db.users == SetImage(old(db.users), email, Some(ref)) &&
      OnlyOwnerChanged(old(db.users), db.users, email) &&
      (FindOne(old(db.users), ByEmail(email)).Some? ==>
         FindOne(db.users, ByEmail(email)) ==
           Some(FindOne(old(db.users), ByEmail(email)).value.(profileImage := Some(ref))))
  {
    db.WriteFile(ref);
    if fault.FirstCallFails? {
      return Response(500, Message("Failed to update user"));
    }
    var previous := CurrentImage(db.users, email);
    if previous.Some? {
      var _ := db.RemoveFile(previous.value);
    }
    if fault.SecondCallFails? {
      return Response(500, Message("Failed to update user"));
    }
    SetImageOnlyTouchesOwner(db.users, email, Some(ref));
    SetImageThenFind(db.users, email, Some(ref));
    db.UpdateProfileImage(email, Some(ref));
    r := Response(200, ImageUrl(ref));
  }

  /** POST: `principal` is what `verifyJWT` yields, `uuid` what `uuidv4`
      returns; `fault` says whether the `findOne` (with the connection) or
      the `updateOne` throws. A refused request changes nothing; an accepted
      one is saved as `/profile-images/<uuid>.<extension>`. */
  method Post(db: Database, principal: Option<Principal>, req: UploadRequest, uuid: string, fault: DbFault)
    returns (r: Response)
    requires db.Valid()
    requires UuidUnused(db.users, uuid)
    modifies db`users, db`files
    ensures db.Valid()
    ensures Rejection(principal, req).Some? ==>
      r == Rejection(principal, req).value && db.users == old(db.users) && db.files == old(db.files)
    ensures Rejection(principal, req).None? ==>
      var email := principal.value.email;
      var ref := ImageRef(StoredName(uuid, req.form.value.name));
      var previous := CurrentImage(old(db.users), email);
      (fault.FirstCallFails? ==>
         r == Response(500, Message("Failed to update user")) &&
         db.users == old(db.users) && db.files == old(db.files) + {ref}) &&
      (fault.SecondCallFails? ==>
         r == Response(500, Message("Failed to update user")) &&
         db.users == old(db.users) && db.files == WithoutImage(old(db.files) + {ref}, previous)) &&
      (fault.NoFailure? ==>
         r == Response(200, ImageUrl(ref)) &&
         db.files == WithoutImage(old(db.files) + {ref}, previous) &&
         ref in db.files && (previous.Some? ==> previous.value !in db.files) &&
         db.users == SetImage(old(db.users), email, Some(ref)) &&
         OnlyOwnerChanged(old(db.users), db.users, email) &&
         (FindOne(old(db.users), ByEmail(email)).Some? ==>
            FindOne(db.users, ByEmail(email)) ==
              Some(FindOne(old(db.users), ByEmail(email)).value.(profileImage := Some(ref)))))
  {
    var refusal := Rejection(principal, req);
    if refusal.Some? {
      return refusal.value;
    }
    var file := req.form.value;
    var filename := StoredName(uuid, file.name);
    FreshNameIsNotCurrent(db.users, principal.value.email, uuid, file.name);
    r := SaveAndLink(db, principal.value.email, ImageRef(filename), fault);
  }

  /** DELETE: `fault` says whether the `findOne` (with the connection) or
      the `updateOne` throws. */
  method Delete(db: Database, principal: Option<Principal>, fault: DbFault) returns (r: Response)
    requires db.Valid()
    modifies db`users, db`files
    ensures db.Valid()
    ensures principal.None? ==>
      r == Response(401, Message("Unauthorized")) && db.users == old(db.users) && db.files == old(db.files)
    ensures principal.Some? && fault.FirstCallFails? ==>
      r == Response(500, Message("Failed to delete profile image")) &&
      db.users == old(db.users) && db.files == old(db.files)
    ensures principal.Some? && !fault.FirstCallFails? ==>
      var email := principal.value.email;
      var previous := CurrentImage(old(db.users), email);
      (previous.None? ==>
         r == Response(200, Message("OK")) && db.users == old(db.users) && db.files == old(db.files)) &&
      (previous.Some? ==>
         db.files == old(db.files) - {previous.value} &&
         (fault.NoFailure? ==>
            r == Response(200, Message("OK")) && db.users == SetImage(old(db.users), email, None) &&
            OnlyOwnerChanged(old(db.users), db.users, email) &&
            FindOne(db.users, ByEmail(email)) ==
              Some(FindOne(old(db.users), ByEmail(email)).value.(profileImage := None))) &&
         (fault.SecondCallFails? ==>
            r == Response(500, Message("Failed to delete profile image")) && db.users == old(db.users)))
  {
    if principal.None? {
      return Response(401, Message("Unauthorized"));
    }
    if fault.FirstCallFails? {
      return Response(500, Message("Failed to delete profile image"));
    }
    var email := principal.value.email;
    var previous := CurrentImage(db.users, email);
    if previous.Some? {
      var _ := db.RemoveFile(previous.value);
      if fault.SecondCallFails? {
        return Response(500, Message("Failed to delete profile image"));
      }
      SetImageOnlyTouchesOwner(db.users, email, None);
      SetImageThenFind(db.users, email, None);
      db.UpdateProfileImage(email, None);
    }
    r := Response(200, Message("OK"));
  }
}
