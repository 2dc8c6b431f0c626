/** `/api/user/profile`: the signed-in user's own record. One read of the
    user collection; a function of the table, so it cannot change it. */
module ProfileRoute {
  import opened Common
  import opened Records

  /** GET /api/user/profile. `principal` is what `verifyJWT` yields for the
      request; `fault` is the message of a failed connection or `findOne`. */
  function GetProfile(users: seq<User>, principal: Option<Principal>, fault: Option<string>): (r: Response)
    ensures principal.None? ==> r == Response(401, Message("Unauthorized"))
    ensures principal.Some? && fault.Some? ==> r == Response(500, Message("Internal server error"))
    ensures principal.Some? && fault.None? && (forall u :: u in users ==> u.email != principal.value.email) ==>
      r == Response(404, Message("User not found"))
    ensures r.status in {200, 401, 404, 500}
    ensures r.status == 200 ==>
      exists u :: u in users && u.email == principal.value.email && r == Response(200, Profile(WithoutPassword(u)))
  {
    match principal
    case None => Response(401, Message("Unauthorized"))
    case Some(p) =>
      if fault.Some? then Response(500, Message("Internal server error"))
      else
        match FindOne(users, ByEmail(p.email))
        case None => Response(404, Message("User not found"))
        case Some(profile) => Response(200, Profile(WithoutPassword(profile)))
  }

  /** In a table with unique emails, a signed-in user whose email is stored
      gets exactly that record back, every field but the password. */
  lemma {:induction false} ProfileOfStoredUser(users: seq<User>, u: User)
    requires UniqueKeys(users)
    requires u in users
    ensures GetProfile(users, Some(Principal(u.email)), None) == Response(200, Profile(WithoutPassword(u)))
    ensures WithPassword(GetProfile(users, Some(Principal(u.email)), None).body.user, u.passwordHash) == u
  {
    var k :| 0 <= k < |users| && users[k] == u;
    FindOneSelectsOwner(users, k, ByEmail(u.email));
  }
}
