/** `/api/admin/initial`: a password-gated call of `ensureIndexes`. */
module AdminInitialRoute {
  import opened Common
  import opened Records
  import opened Store

  /** The challenge checks: `None` lets the request through, otherwise the
      refusal. `pass` is the query parameter (`None` when absent),
      `setupPass` the `ADMIN_SETUP_PASS` environment variable (`None` when
      unset). */
  function Challenge(pass: Option<string>, setupPass: Option<string>): (refusal: Option<Response>)
    ensures refusal.None? <==> pass.Some? && pass.value != "" && setupPass == pass
    ensures Falsy(pass) ==> refusal == Some(Response(400, Message("Invalid usage")))
    ensures !Falsy(pass) && setupPass != pass ==>
      refusal == Some(Response(400, Message("Admin password incorrect")))
  {
    if Falsy(pass) then Some(Response(400, Message("Invalid usage")))
    else if setupPass != pass then Some(Response(400, Message("Admin password incorrect")))
    else None
  }

  /** Without a configured password, or with an empty one, nothing gets
      through. */
  lemma UnconfiguredRejectsAll(pass: Option<string>, setupPass: Option<string>)
    requires setupPass.None? || setupPass == Some("")
    ensures Challenge(pass, setupPass).Some?
    ensures Challenge(pass, setupPass).value.status == 400
  {
  }

  /** GET /api/admin/initial: `ensureIndexes` runs exactly when the
      challenge lets the request through. */
  method Initial(db: Database, pass: Option<string>, setupPass: Option<string>) returns (r: Response)
    modifies db`indexRuns
    ensures Challenge(pass, setupPass).Some? ==>
      r == Challenge(pass, setupPass).value && db.indexRuns == old(db.indexRuns)
    ensures Challenge(pass, setupPass).None? ==>
      r == Response(200, Message("Indexes ensured")) && db.indexRuns == old(db.indexRuns) + 1
  {
    var refusal := Challenge(pass, setupPass);
    if refusal.Some? {
      return refusal.value;
    }
    db.EnsureIndexes();
    r := Response(200, Message("Indexes ensured"));
  }
}
