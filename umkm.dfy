/** routes/umkm.js: the same four routes as routes/suppliers.js over the UMKM
    table, except that the update and the delete do not look the row up first:
    on an id with no row they change nothing in UMKM and still report success. */
module Umkm {
  import opened Text
  import opened Http
  import opened Tables
  import opened Contacts
  import Auth

  /** GET /umkm/:id. */
  method GetUmkm(db: Database, header: Option<string>, accepted: set<string>, id: nat)
    returns (r: Response<Auth.UserView>)
    requires db.Valid()
    ensures VerifyToken(header, accepted).Some? ==> r == Respond(VerifyToken(header, accepted).value)
    ensures r == Fail(404, "UMKM not found") <==> VerifyToken(header, accepted).None? && id !in db.umkms
    ensures r == Thrown <==>
      VerifyToken(header, accepted).None? && id in db.umkms
      && forall k :: k in db.auths ==> !AccountOf(id, UmkmRole)(db.auths[k])
    ensures r.Ok? <==>
      VerifyToken(header, accepted).None? && id in db.umkms
      && exists k :: k in db.auths && AccountOf(id, UmkmRole)(db.auths[k])
    ensures r.Ok? ==>
      && VerifyToken(header, accepted).None? && id in db.umkms && r.message == "success"
      && exists k :: FirstWhere(db.auths, AccountOf(id, UmkmRole), k)
                  && r.data == Auth.UmkmView(id, db.umkms[id], db.auths[k].email)
  {
    var gate := VerifyToken(header, accepted);
    if gate.Some? {
      return Respond(gate.value);
    }
    if id !in db.umkms {
      return Fail(404, "UMKM not found");
    }
    var accounts := SelectWhere(db.auths, db.nextAuth, AccountOf(id, UmkmRole));
    if accounts == [] {
      return Thrown;
    }
    ScanHeadIsFirst(db.auths, AccountOf(id, UmkmRole), accounts);
    assert accounts[0] in accounts;
    r := Ok("success", Auth.UmkmView(id, db.umkms[id], db.auths[accounts[0]].email));
  }

  /** POST /umkm. No token is asked for. */
  method CreateUmkm(db: Database, f: ContactForm) returns (r: Response<nat>)
    requires db.Valid()
    modifies db`umkms, db`nextUmkm
    ensures db.Valid()
    ensures FirstHalt(CreateChecks(f)).Some? ==> r == Respond(FirstHalt(CreateChecks(f)).value) && unchanged(db)
    ensures r.Ok? <==> CreateAccepted(f)
    ensures CreateAccepted(f) ==>
      && r == Ok("UMKM created successfully", old(db.nextUmkm))
      && old(db.nextUmkm) !in old(db.umkms)
      && db.umkms == old(db.umkms)[old(db.nextUmkm) :=
           UmkmRow(f.name.value, f.description.value, f.address.value, f.contact.value)]
      && db.nextUmkm == old(db.nextUmkm) + 1
  {
    CreateChecksPass(f);
    var halt := FirstHalt(CreateChecks(f));
    if halt.Some? {
      return Respond(halt.value);
    }
    var id := db.nextUmkm;
    db.umkms := db.umkms[id := UmkmRow(f.name.value, f.description.value, f.address.value, f.contact.value)];
    db.nextUmkm := id + 1;
    r := Ok("UMKM created successfully", id);
  }

  /** PUT /umkm/:id. Past the checks the reply is always a success: a missing row
      stays missing, yet the Auth rows of that id still take the new email. */
  method UpdateUmkm(db: Database, header: Option<string>, accepted: set<string>, id: nat, f: ProfileForm)
    returns (r: Response<()>)
    requires db.Valid()
    modifies db`umkms, db`auths
    ensures db.Valid()
    ensures Guarded(VerifyToken(header, accepted), UpdateChecks(f)).Some? ==>
      r == Respond(Guarded(VerifyToken(header, accepted), UpdateChecks(f)).value)
    ensures r.Ok? <==> VerifyToken(header, accepted).None? && UpdateAccepted(f)
    ensures !r.Ok? ==> unchanged(db)
    ensures r.Ok? ==>
      && r.message == "Success Update Profile UMKM"
      && db.umkms == UpdateWhere(old(db.umkms), id,
           UmkmRow(f.name.value, f.description.value, f.address.value, f.phoneNumber.value))
      && EmailRewritten(old(db.auths), db.auths, id, UmkmRole, f.email.value)
    ensures r.Ok? && id !in old(db.umkms) ==> db.umkms == old(db.umkms)
  {
    UpdateChecksPass(f);
    var halt := Guarded(VerifyToken(header, accepted), UpdateChecks(f));
    if halt.Some? {
      return Respond(halt.value);
    }
    db.umkms := UpdateWhere(db.umkms, id, UmkmRow(f.name.value, f.description.value, f.address.value, f.phoneNumber.value));
    RewriteEmailSpec(db.auths, id, UmkmRole, f.email.value);
    db.auths := RewriteEmail(db.auths, id, UmkmRole, f.email.value);
    r := Ok("Success Update Profile UMKM", ());
  }

  /** DELETE /umkm/:id. Success whether or not the row existed. */
  method DeleteUmkm(db: Database, header: Option<string>, accepted: set<string>, id: nat)
    returns (r: Response<()>)
    requires db.Valid()
    modifies db`umkms
    ensures db.Valid()
    ensures VerifyToken(header, accepted).Some? ==> r == Respond(VerifyToken(header, accepted).value) && unchanged(db)
    ensures VerifyToken(header, accepted).None? ==>
      r == Ok("UMKM deleted successfully", ()) && db.umkms == old(db.umkms) - {id}
  {
    var gate := VerifyToken(header, accepted);
    if gate.Some? {
      return Respond(gate.value);
    }
    db.umkms := db.umkms - {id};
    r := Ok("UMKM deleted successfully", ());
  }
}
