# Server-side route handlers of a small user and item web application

This project models the API routes of a Next.js application backed by
MongoDB: user registration and listing, login, the signed-in user's profile,
uploading and removing a profile image, creating and listing catalogue items,
and an admin endpoint that creates the database indexes. It proves what each
handler answers and how it changes the application state.

The state is a single object, `Store.Database`. It holds:

- the `user` collection, as a sequence of `User` documents in insertion order;
- the `item` collection;
- the set of image files stored under `public/profile-images`, keyed by the
  reference the application stores (`/profile-images/<file>`);
- counters that hand out fresh `_id`s;
- a count of `ensureIndexes` runs.

`Database.Valid()` is the invariant the unique indexes give: no two users
share an id, a username or an email, and item ids are distinct. The
collection and file operations the handlers call are methods of the class
(`InsertOneUser`, `UpdateProfileImage`, `WriteFile`, `RemoveFile`,
`InsertOneItem`, `EnsureIndexes`).

There is one module per route file. The handlers that change state are
methods on the store: registration, image upload and delete, item creation,
and the admin call. Login, profile, and the two list routes only read, so
they are functions of the table.

The code's collaborators are parameters, with no code behind them:

- `hash` stands for `bcrypt.hash`, and `compare` for `bcrypt.compare`.
- The principal that `verifyJWT` yields is an `Option<Principal>`.
- The name that `uuidv4` returns is a string. The `UuidUnused` precondition
  says no stored reference is built from it.
- Multipart parsing is modelled as the parsed "file" entry, or `None` when
  parsing throws.
- Database failures are modelled as a message (`Option<string>`), or as
  `DbFault`, which says which of a handler's two database calls throws.

A rejected insertion carries MongoDB's unique-index error text. It uses the
default index names `username_1` and `email_1` and quotes the duplicate
value (`Store.DuplicateKeyError`). The username index is checked first. The
indexes are created by `ensureIndexes`, which is not part of this model, so
this format is an assumption.

The password hash cannot leak through any response: a user leaves a handler
only as a `PublicUser`, a type with no field for it.
`Records.StripRoundTrip` shows that removing the password loses exactly that
one field.

Two behaviours the proofs make explicit:

- The duplicate rule reads the whole error text, and that text quotes the
  duplicate value. So a colliding email that itself contains "username" is
  reported as "Duplicate Username!" (`UserRoute.EmailCollisionReported`).
- An upload whose image-reference update fails has already removed the old
  file. The user's record then still names a file that no longer exists
  (`ProfileImageRoute.SaveAndLink`, the `SecondCallFails` case).

Three facts about the code that the model keeps:

- `MAX_FILE_SIZE` (src/app/api/user/upload-profile-image/route.js:10) is
  declared but never checked, so uploads have no size limit.
- Every failure the registration handler catches answers 400.
- An upload for an email that matches no user still stores the file and
  answers 200.

## Model

| member | source | states |
|---|---|---|
| `Common.Falsy` | src/app/api/user/route.js:34 | The `!x` test on a request field: a field is truthy exactly when it is present and non-empty. |
| `Records.StripRoundTrip` | src/app/api/user/route.js:18-21 | A user without its password field keeps every other field: putting the hash back restores the stored document, and stripping a rebuilt document gives back the public view. |
| `Records.WithoutPassword` | src/app/api/user/route.js:18-21 | `const { password, ...rest } = user` (also login/route.js:43 and profile/route.js:46): the result, given the removed hash back, is the stored user again. |
| `Records.FirstMatch` | src/app/api/auth/login/route.js:25 | The position `findOne` selects: it matches the filter, and no earlier document does (or none matches at all). |
| `Records.FindOne` | src/app/api/user/profile/route.js:31 | `findOne` returns a stored document that matches the filter, and returns null exactly when no stored document matches. |
| `Records.FindOneSelectsOwner` | src/app/api/user/profile/route.js:30-31 | With unique usernames and emails, a filter on either one selects the single user that has it. |
| `Records.SetImageOnlyTouchesOwner` | src/app/api/user/upload-profile-image/route.js:93-96 | With unique emails, `updateOne({email}, {$set: {profileImage}})` changes that user's image and nothing else. Every user with a different email is unchanged. |
| `Records.SetImageKeepsKeys` | src/app/api/user/upload-profile-image/route.js:137-140 | Updating an image reference keeps every id, username and email, so the unique-key invariant still holds. |
| `Records.SetImageThenFind` | src/app/api/user/upload-profile-image/route.js:93-100 | After the update, looking the owner up by email finds the same user with the new reference. The user is found exactly when it was found before. |
| `Records.SetImage` | src/app/api/user/upload-profile-image/route.js:93-96 | `updateOne({ email }, { $set: { profileImage } })` (also lines 137-140): the table keeps its length, each document is either unchanged or a user with that email given the new reference, nothing changes when no user has the email, and otherwise a user with that email holds the new reference. |
| `Records.FindItem` | src/app/api/item/route.js:29 | `findOne({_id})` on items returns a stored item with that id, or null only when no stored item has it. |
| `Store.Database.InsertOneUser` | src/app/api/user/route.js:44-52 | A username or email already stored is rejected with the duplicate-key error text, and the table is unchanged. Otherwise the document is appended under a fresh id, which is returned, and uniqueness is kept. |
| `Store.Database.UpdateProfileImage` | src/app/api/user/upload-profile-image/route.js:93-96 | The table becomes the one where the first user with that email has the new image reference. The invariant is kept. |
| `Store.Database.WriteFile` | src/app/api/user/upload-profile-image/route.js:72-73 | Writing the upload adds its path to the stored files. |
| `Store.Database.RemoveFile` | src/app/api/user/upload-profile-image/route.js:84-89 | Removing a file drops its path. It fails, changing nothing, exactly when the file is missing. |
| `Store.Database.InsertOneItem` | src/app/api/item/route.js:23-27 | The item is appended under a fresh id that no stored item has, and that id is returned. |
| `Store.Database.EnsureIndexes` | src/app/api/admin/initial/route.js:28 | Records one run of `ensureIndexes`. |
| `UserRoute.DisplayErrorMessage` | src/app/api/user/route.js:60-68 | "Duplicate Username!" exactly when the failure text contains "duplicate" and "username". "Duplicate Email!" exactly when it contains "duplicate" and "email" but not "username", so username wins when both appear. Otherwise the empty string. |
| `UserRoute.DuplicateKeyErrorMentions` | src/app/api/user/route.js:62-63 | Every unique-index error text contains "duplicate" and the name of the violated field. |
| `UserRoute.UsernameCollisionReported` | src/app/api/user/route.js:62-64 | A username collision is always shown as "Duplicate Username!". |
| `UserRoute.EmailCollisionReported` | src/app/api/user/route.js:62-67 | An email collision is shown as a duplicate, never as the empty message. An email that contains "username" is shown as "Duplicate Username!". |
| `UserRoute.Post` | src/app/api/user/route.js:26-73 | A missing or empty username, email or password gives 400 "Missing mandatory data" and inserts nothing. Every failure is a 400 with the classified message and leaves the table unchanged. A taken username gives "Duplicate Username!". Success (200) happens exactly when the fields are present and neither key is taken. It appends one record with the password's hash, status "ACTIVE" and no image, and answers only its id. |
| `UserRoute.List` | src/app/api/user/route.js:9-24 | 200 with one entry per stored user, in order. Each entry is that user minus its password, and with the hash put back it equals the stored user. |
| `LoginRoute.Login` | src/app/api/auth/login/route.js:9-55 | An unreadable body gives 500 "Server error". A missing or empty username or password gives 400. A database failure gives 500. Every 401 is the single response "Invalid username or password". A 200 carries a stored user with that username whose password matches, without its password, and "Login successful". The table is only read. |
| `LoginRoute.LoginDecision` | src/app/api/auth/login/route.js:24-47 | With unique usernames, a well-formed request succeeds exactly when the stored user with that name has a matching password, and then answers that user. An unknown name gets the invalid-credentials response. |
| `LoginRoute.UnknownUserAnsweredLikeWrongPassword` | src/app/api/auth/login/route.js:25-40 | A request for a username nobody has gets exactly the same response as a stored user's request with a wrong password. |
| `ProfileRoute.GetProfile` | src/app/api/user/profile/route.js:13-64 | No principal gives 401 "Unauthorized", and a lookup failure gives 500 "Internal server error". No user with the principal's email gives 404 "User not found". A 200 carries a stored user with that email, without its password. |
| `ProfileRoute.ProfileOfStoredUser` | src/app/api/user/profile/route.js:30-51 | With unique emails, a principal whose email is stored gets exactly that user back, with every field except the password. |
| `ProfileImageRoute.ParseMultipartFormData` | src/app/api/user/upload-profile-image/route.js:13-19 | The form is available exactly when the content type starts with "multipart/form-data" (an absent header counts as "") and the body parses. |
| `ProfileImageRoute.Extension` | src/app/api/user/upload-profile-image/route.js:67 | The extension is the longest dot-free suffix of the name. It is preceded by a dot, or it is the whole name when the name has no dot. |
| `ProfileImageRoute.ExtensionAfterDot` | src/app/api/user/upload-profile-image/route.js:67-68 | Whatever comes before the last dot, the extension of `stem + "." + ext` is `ext`. |
| `ProfileImageRoute.StoredName` | src/app/api/user/upload-profile-image/route.js:67-68 | The saved file name starts with `<uuid>.` and has the uploaded name's extension. |
| `ProfileImageRoute.CurrentImage` | src/app/api/user/upload-profile-image/route.js:83 | `profile && profile.profileImage` (also line 128): a present reference is non-empty and belongs to a stored user with that email; it is absent exactly when no user has the email or that user's image is absent or empty. |
| `ProfileImageRoute.StoredNameKeepsExtension` | src/app/api/user/upload-profile-image/route.js:66-69 | The stored reference `/profile-images/<uuid>.<ext>` has the uploaded name's extension and starts with the uuid. |
| `ProfileImageRoute.FreshNameIsNotCurrent` | src/app/api/user/upload-profile-image/route.js:66-68 | A fresh uuid never produces the reference of the image being replaced. |
| `ProfileImageRoute.Rejection` | src/app/api/user/upload-profile-image/route.js:28-64 | The checks in order, each with its own response: no principal (401 "Unauthorized"), no multipart form (400 "Invalid form data"), a missing or string "file" (400 "No file uploaded"), a MIME type outside jpeg/png/gif/webp (400 "Only image files are allowed"). A request gets through exactly when it has a principal, a multipart content type, a parsed body and an allowed image file. |
| `ProfileImageRoute.SaveAndLink` | src/app/api/user/upload-profile-image/route.js:66-109 | The new file is written first. If the lookup fails, the answer is 500 and the table is unchanged. Otherwise the previous non-empty image's file is removed, a missing one ignored. If the update then fails, the answer is 500 and the table is unchanged. On success the new file is stored and the old one is not, only the owner's record changes and it now holds the reference, and the answer is 200 with `imageUrl` equal to that reference. |
| `ProfileImageRoute.Post` | src/app/api/user/upload-profile-image/route.js:28-109 | A refused request gets the refusal and changes no user and no file. An accepted one is saved as `/profile-images/<uuid>.<extension of the uploaded name>`, with the outcomes above for each database failure. |
| `ProfileImageRoute.Delete` | src/app/api/user/upload-profile-image/route.js:111-154 | No principal gives 401 and changes nothing. If the user has a non-empty image, its file is removed (a missing one ignored) and the reference is set to null for that user only. Otherwise nothing changes. Both cases answer 200 "OK". A failure of the lookup or the update answers 500. |
| `ItemRoute.Complete` | src/app/api/item/route.js:16 | The request passes validation exactly when name and category are present non-empty strings and a price is present. |
| `ItemRoute.PresentPriceAccepted` | src/app/api/item/route.js:16 | Any present price, 0, null and false included, passes validation. Only an absent price fails. |
| `ItemRoute.Post` | src/app/api/item/route.js:12-35 | An unreadable body gives 500. A falsy name or category, or an absent price, gives 400 and inserts nothing. Otherwise one record is appended under a fresh id, mapping name, category and price to itemName, itemCategory and itemPrice. The answer is 201 with that record read back, or 500 if a database call fails. |
| `ItemRoute.ReadBackFindsInserted` | src/app/api/item/route.js:29-30 | Reading back by the freshly assigned id finds exactly the record just appended. |
| `ItemRoute.List` | src/app/api/item/route.js:4-10 | 200 with all stored items, as stored. |
| `AdminInitialRoute.Challenge` | src/app/api/admin/initial/route.js:8-26 | The request passes exactly when "pass" is present, non-empty and equal to ADMIN_SETUP_PASS. An absent or empty pass gives 400 "Invalid usage", and any other pass 400 "Admin password incorrect". |
| `AdminInitialRoute.UnconfiguredRejectsAll` | src/app/api/admin/initial/route.js:19-26 | With ADMIN_SETUP_PASS unset (or empty) every request is refused with 400. |
| `AdminInitialRoute.Initial` | src/app/api/admin/initial/route.js:8-30 | `ensureIndexes` runs exactly once when the challenge passes, answering 200 "Indexes ensured". It does not run otherwise, and the refusal is returned. |

## Left out

- The `OPTIONS` handlers and the CORS header values: they only echo constant headers.
- bcrypt itself: `hash` and `compare` are parameters. `hash` is a plain function of the password, so its random salt is not modelled, and the comparison cannot throw.
- `verifyJWT` and token signing or expiry. The module that implements them is not part of this model. A principal is given as an option carrying an email.
- `Number(price)`: the stored price is the request's value. JSON numbers are integers here, so floating point, NaN and -0 are not modelled.
- Request fields other than the price are strings or absent. A registration or login field holding a number or boolean is not modelled.
- Failures that no `try` catches: `req.json()` in registration and a
  registration body that is JSON `null` (reading `data.username` throws), the database calls of both GET list routes, `file.arrayBuffer()` and `fs.writeFile` in the upload, and `ensureIndexes`. They end in the framework's own error response, which is not modelled.
- Path handling: files are keyed by their reference. `path.join` normalisation, a name whose extension contains `/`, and the on-disk location are not modelled.
- Uniqueness before `ensureIndexes` first runs: the store always enforces the unique indexes. Which index MongoDB reports first when both collide is an assumption (username).
- Logging (`console.log`/`console.error`) and the messages of non-duplicate database failures, which are only logged or classified.
- `UserRoute.EmailCollisionReported`: does not prove that an email without "username" in it is shown as "Duplicate Email!". That needs every position of the fixed error text, which the proof does not enumerate. It proves only that the message is one of the two duplicates.
- The user-by-id and item-by-id routes (`src/app/api/user/[id]/route.js`, `src/app/api/item/[id]/route.js`) are not part of this model, so profile update and user deletion are not modelled. Neither are the React pages and the header component.
- Concurrency between requests, including races on the unique indexes.
