/** routes/suppliers.js: the supplier profile read, an ungated create, a
    profile update that rewrites the account email as well, and a delete. Every
    route but the create sits behind verifyToken. */
module Suppliers {
  import opened Text
  import opened Http
  import opened Tables
  import opened Contacts
  import Auth

  /** GET /suppliers/:id. The profile row, then the email of the first Auth row
      of that supplier; a supplier without an Auth row makes the handler read a
      field of `undefined`, which throws. */
  method GetSupplier(db: Database, header: Option<string>, accepted: set<string>, id: nat)
    returns (r: Response<Auth.UserView>)
    requires db.Valid()
    ensures VerifyToken(header, accepted).Some? ==> r == Respond(VerifyToken(header, accepted).value)
    ensures r == Fail(404, "Supplier not found") <==> VerifyToken(header, accepted).None? && id !in db.suppliers
    ensures r == Thrown <==>
      VerifyToken(header, accepted).None? && id in db.suppliers
      && forall k :: k in db.auths ==> !AccountOf(id, SupplierRole)(db.auths[k])
    ensures r.Ok? <==>
      VerifyToken(header, accepted).None? && id in db.suppliers
      && exists k :: k in db.auths && AccountOf(id, SupplierRole)(db.auths[k])
    ensures r.Ok? ==>
      && VerifyToken(header, accepted).None? && id in db.suppliers && r.message == "success"
      && exists k :: FirstWhere(db.auths, AccountOf(id, SupplierRole), k)
                  && r.data == Auth.SupplierView(id, db.suppliers[id], db.auths[k].email)
  {
    var gate := VerifyToken(header, accepted);
    if gate.Some? {
      return Respond(gate.value);
    }
    if id !in db.suppliers {
      return Fail(404, "Supplier not found");
    }
    var accounts := SelectWhere(db.auths, db.nextAuth, AccountOf(id, SupplierRole));
    if accounts == [] {
      return Thrown;
    }
    ScanHeadIsFirst(db.auths, AccountOf(id, SupplierRole), accounts);
    assert accounts[0] in accounts;
    r := Ok("success", Auth.SupplierView(id, db.suppliers[id], db.auths[accounts[0]].email));
  }

  /** POST /suppliers. No token is asked for. The reply carries the new row's id. */
  method CreateSupplier(db: Database, f: ContactForm) returns (r: Response<nat>)
    requires db.Valid()
    modifies db`suppliers, db`nextSupplier
    ensures db.Valid()
    ensures FirstHalt(CreateChecks(f)).Some? ==> r == Respond(FirstHalt(CreateChecks(f)).value) && unchanged(db)
    ensures r.Ok? <==> CreateAccepted(f)
    ensures CreateAccepted(f) ==>
      && r == Ok("Supplier created successfully", old(db.nextSupplier))
      && old(db.nextSupplier) !in old(db.suppliers)
      && db.suppliers == old(db.suppliers)[old(db.nextSupplier) :=
           SupplierRow(f.name.value, f.description.value, f.address.value, f.contact.value)]
      && db.nextSupplier == old(db.nextSupplier) + 1
  {
    CreateChecksPass(f);
    var halt := FirstHalt(CreateChecks(f));
    if halt.Some? {
      return Respond(halt.value);
    }
    var id := db.nextSupplier;
    db.suppliers := db.suppliers[id := SupplierRow(f.name.value, f.description.value, f.address.value, f.contact.value)];
    db.nextSupplier := id + 1;
    r := Ok("Supplier created successfully", id);
  }

  /** PUT /suppliers/:id. After the checks and the existence test, the profile
      row takes the new name, description, address and number, and every Auth
      row of that supplier takes the new email. */
  method UpdateSupplier(db: Database, header: Option<string>, accepted: set<string>, id: nat, f: ProfileForm)
    returns (r: Response<()>)
    requires db.Valid()
    modifies db`suppliers, db`auths
    ensures db.Valid()
    ensures Guarded(VerifyToken(header, accepted), UpdateChecks(f)).Some? ==>
      r == Respond(Guarded(VerifyToken(header, accepted), UpdateChecks(f)).value)
    ensures r == Fail(404, "Supplier not found") <==>
      VerifyToken(header, accepted).None? && UpdateAccepted(f) && id !in old(db.suppliers)
    ensures r.Ok? <==> VerifyToken(header, accepted).None? && UpdateAccepted(f) && id in old(db.suppliers)
    ensures !r.Ok? ==> unchanged(db)
    ensures r.Ok? ==>
      && r.message == "Success Update Profile Supplier"
      && db.suppliers == old(db.suppliers)[id :=
           SupplierRow(f.name.value, f.description.value, f.address.value, f.phoneNumber.value)]
      && EmailRewritten(old(db.auths), db.auths, id, SupplierRole, f.email.value)
  {
    UpdateChecksPass(f);
    var halt := Guarded(VerifyToken(header, accepted), UpdateChecks(f));
    if halt.Some? {
      return Respond(halt.value);
    }
    if id !in db.suppliers {
      return Fail(404, "Supplier not found");
    }
    db.suppliers := db.suppliers[id := SupplierRow(f.name.value, f.description.value, f.address.value, f.phoneNumber.value)];
    RewriteEmailSpec(db.auths, id, SupplierRole, f.email.value);
    db.auths := RewriteEmail(db.auths, id, SupplierRole, f.email.value);
    r := Ok("Success Update Profile Supplier", ());
  }

  /** DELETE /suppliers/:id. The Auth rows and raw materials of the supplier are
      left in place. */
  method DeleteSupplier(db: Database, header: Option<string>, accepted: set<string>, id: nat)
    returns (r: Response<()>)
    requires db.Valid()
    modifies db`suppliers
    ensures db.Valid()
    ensures VerifyToken(header, accepted).Some? ==> r == Respond(VerifyToken(header, accepted).value)
    ensures r == Fail(404, "Supplier not found") <==> VerifyToken(header, accepted).None? && id !in old(db.suppliers)
    ensures r.Ok? <==> VerifyToken(header, accepted).None? && id in old(db.suppliers)
    ensures !r.Ok? ==> unchanged(db)
    ensures r.Ok? ==> r.message == "Supplier deleted successfully" && db.suppliers == old(db.suppliers) - {id}
  {
    var gate := VerifyToken(header, accepted);
    if gate.Some? {
      return Respond(gate.value);
    }
    if id !in db.suppliers {
      return Fail(404, "Supplier not found");
    }
    db.suppliers := db.suppliers - {id};
    r := Ok("Supplier deleted successfully", ());
  }
}
