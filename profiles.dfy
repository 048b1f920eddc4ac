/** routes/profil_pembatik.js: craftsperson (pembatik) profiles. Every route is
    behind verifyToken. The create requires an image, the update does not and
    stores NULL when none is sent; the update and delete do not look the row up
    first. Every read turns the stored image into base64, and throws on a NULL
    image. */
module Profiles {
  import opened Text
  import opened Http
  import opened Tables

  /** `validateName`: between 1 and 100 characters. */
  predicate ValidateName(name: string) {
    0 < |name| <= 100
  }

  /** `validateYear`: after 1900 and not after the current year. An absent or
      non-numeric year compares false both ways, so it is refused. */
  predicate ValidateYear(year: Option<int>, currentYear: int) {
    year.Some? && 1900 < year.value <= currentYear
  }

  /** The body of POST /profil_pembatik and PUT /profil_pembatik/:id. */
  datatype PembatikForm = PembatikForm(
    name: Option<string>, startedYear: Option<int>, description: Option<string>, smeId: Option<nat>)

  const NameMessage := "Name must be between 1 and 100 characters long."

  /** The checks the update runs: reading `length` of an absent name throws. */
  function EditChecks(f: PembatikForm, currentYear: int): seq<Step> {
    [ Step(f.name.Some?, Throw),
      Step(f.name.None? || ValidateName(f.name.value), Reject(400, NameMessage)),
      Step(ValidateYear(f.startedYear, currentYear), Reject(400, "Invalid started year.")) ]
  }

  /** The checks the create runs: the image first, then the update's. */
  function CreateChecks(image: Option<Bytes>, f: PembatikForm, currentYear: int): seq<Step> {
    [Step(image.Some?, Reject(400, "Image is required."))] + EditChecks(f, currentYear)
  }

  predicate EditAccepted(f: PembatikForm, currentYear: int) {
    f.name.Some? && ValidateName(f.name.value) && ValidateYear(f.startedYear, currentYear)
  }

  /** An edit gets through exactly when the name is 1 to 100 characters and the
      year is valid; a bad name is reported before a bad year. */
  lemma EditChecksPass(f: PembatikForm, currentYear: int)
    ensures FirstHalt(EditChecks(f, currentYear)) == None <==> EditAccepted(f, currentYear)
    ensures f.name.Some? && !ValidateName(f.name.value) ==>
      FirstHalt(EditChecks(f, currentYear)) == Some(Reject(400, NameMessage))
    ensures f.name.Some? && ValidateName(f.name.value) && !ValidateYear(f.startedYear, currentYear) ==>
      FirstHalt(EditChecks(f, currentYear)) == Some(Reject(400, "Invalid started year."))
  {
    var steps := EditChecks(f, currentYear);
    FirstHaltIsEarliestFailure(steps);
    if FirstHalt(steps) == None {
      assert steps[0].passes && steps[1].passes && steps[2].passes;
    }
    if f.name.Some? && !ValidateName(f.name.value) {
      assert EarliestFailure(steps, 1);
    }
    if f.name.Some? && ValidateName(f.name.value) && !ValidateYear(f.startedYear, currentYear) {
      assert EarliestFailure(steps, 2);
    }
  }

  /** Apart from the image rule, which comes first, the create runs exactly the
      update's checks: with an image both reply alike, without one the create
      refuses with 400 whatever the other fields hold. */
  lemma CreateIsEditPlusImage(image: Option<Bytes>, f: PembatikForm, currentYear: int)
    ensures image.Some? ==> FirstHalt(CreateChecks(image, f, currentYear)) == FirstHalt(EditChecks(f, currentYear))
    ensures image.None? ==> FirstHalt(CreateChecks(image, f, currentYear)) == Some(Reject(400, "Image is required."))
  {
    var steps := CreateChecks(image, f, currentYear);
    assert steps[1..] == EditChecks(f, currentYear);
  }

  /** One profile as the reads reply with it; the image is the stored bytes
      (sent base64-encoded). */
  datatype PembatikView = PembatikView(
    profileId: string, name: string, startedYear: int, description: Option<string>, smeId: Option<nat>, image: Bytes)

  function ViewOf(id: nat, row: ProfileRow): PembatikView
    requires row.image.Some?
  {
    PembatikView(FormatId("profile", id), row.name, row.startedYear, row.description, row.umkmId, row.image.value)
  }

  function ViewsOf(table: map<nat, ProfileRow>, ids: seq<nat>): (vs: seq<PembatikView>)
    requires forall i :: 0 <= i < |ids| ==> ids[i] in table && table[ids[i]].image.Some?
  {
    seq(|ids|, i requires 0 <= i < |ids| => ViewOf(ids[i], table[ids[i]]))
  }

  /** The row a create or update writes. */
  function RowOf(f: PembatikForm, image: Option<Bytes>, currentYear: int): ProfileRow
    requires EditAccepted(f, currentYear)
  {
    ProfileRow(f.name.value, image, f.startedYear.value, f.description, f.smeId)
  }

  /** POST /profil_pembatik. The reply carries the new row's id. */
  method CreateProfile(db: Database, header: Option<string>, accepted: set<string>,
                       image: Option<Bytes>, f: PembatikForm, currentYear: int)
    returns (r: Response<nat>)
    requires db.Valid()
    modifies db`profiles, db`nextProfile
    ensures db.Valid()
    ensures Guarded(VerifyToken(header, accepted), CreateChecks(image, f, currentYear)).Some? ==>
      r == Respond(Guarded(VerifyToken(header, accepted), CreateChecks(image, f, currentYear)).value)
    ensures r.Ok? <==> VerifyToken(header, accepted).None? && image.Some? && EditAccepted(f, currentYear)
    ensures !r.Ok? ==> unchanged(db)
    ensures r.Ok? ==>
      && image.Some? && EditAccepted(f, currentYear)
      && r == Ok("Success Add Profile", old(db.nextProfile))
      && old(db.nextProfile) !in old(db.profiles)
      && db.profiles == old(db.profiles)[old(db.nextProfile) := RowOf(f, image, currentYear)]
      && db.nextProfile == old(db.nextProfile) + 1
  {
    CreateIsEditPlusImage(image, f, currentYear);
    EditChecksPass(f, currentYear);
    var halt := Guarded(VerifyToken(header, accepted), CreateChecks(image, f, currentYear));
    if halt.Some? {
      return Respond(halt.value);
    }
    var id := db.nextProfile;
    db.profiles := db.profiles[id := RowOf(f, image, currentYear)];
    db.nextProfile := id + 1;
    r := Ok("Success Add Profile", id);
  }

  /** The rows of a scan, formatted; converting a NULL image throws. */
  method ListWhere(db: Database, keep: ProfileRow -> bool) returns (r: Response<seq<PembatikView>>)
    requires db.Valid()
    ensures r.Ok? || r.Thrown?
    ensures r.Thrown? <==> exists id :: id in db.profiles && keep(db.profiles[id]) && db.profiles[id].image.None?
    ensures r.Ok? ==>
      && r.message == "success"
      && exists ids :: ScanOf(db.profiles, keep, ids)
                    && (forall i :: 0 <= i < |ids| ==> db.profiles[ids[i]].image.Some?)
                    && r.data == ViewsOf(db.profiles, ids)
  {
    var ids := SelectWhere(db.profiles, db.nextProfile, keep);
    var i := 0;
    while i < |ids|
      invariant 0 <= i <= |ids|
      invariant forall j :: 0 <= j < i ==> db.profiles[ids[j]].image.Some?
    {
      assert ids[i] in ids;
      if db.profiles[ids[i]].image.None? {
        return Thrown;
      }
      i := i + 1;
    }
    forall id | id in db.profiles && keep(db.profiles[id]) ensures db.profiles[id].image.Some? {
      var j :| 0 <= j < |ids| && ids[j] == id;
    }
    assert ScanOf(db.profiles, keep, ids);
    r := Ok("success", ViewsOf(db.profiles, ids));
  }

  function AnyRow(): ProfileRow -> bool {
    (row: ProfileRow) => true
  }

  function OfUmkm(umkmId: nat): ProfileRow -> bool {
    (row: ProfileRow) => row.umkmId == Some(umkmId)
  }

  /** GET /profil_pembatik. */
  method ReadAllProfiles(db: Database, header: Option<string>, accepted: set<string>)
    returns (r: Response<seq<PembatikView>>)
    requires db.Valid()
    ensures VerifyToken(header, accepted).Some? ==> r == Respond(VerifyToken(header, accepted).value)
    ensures r.Thrown? <==>
      VerifyToken(header, accepted).None? && exists id :: id in db.profiles && db.profiles[id].image.None?
    ensures VerifyToken(header, accepted).None? ==> r.Ok? || r.Thrown?
    ensures r.Ok? ==>
      && r.message == "success"
      && exists ids :: ScanOf(db.profiles, AnyRow(), ids)
                    && (forall i :: 0 <= i < |ids| ==> db.profiles[ids[i]].image.Some?)
                    && r.data == ViewsOf(db.profiles, ids)
  {
    var gate := VerifyToken(header, accepted);
    if gate.Some? {
      return Respond(gate.value);
    }
    r := ListWhere(db, AnyRow());
  }

  /** GET /profil_pembatik/umkm/:umkm_id: exactly the profiles of that UMKM, in
      key order; an UMKM with none gets an empty list. */
  method ListByUmkm(db: Database, header: Option<string>, accepted: set<string>, umkmId: nat)
    returns (r: Response<seq<PembatikView>>)
    requires db.Valid()
    ensures VerifyToken(header, accepted).Some? ==> r == Respond(VerifyToken(header, accepted).value)
    ensures r.Thrown? <==>
      && VerifyToken(header, accepted).None?
      && exists id :: id in db.profiles && db.profiles[id].umkmId == Some(umkmId) && db.profiles[id].image.None?
    ensures VerifyToken(header, accepted).None? ==> r.Ok? || r.Thrown?
    ensures r.Ok? ==>
      && r.message == "success"
      && (forall i :: 0 <= i < |r.data| ==> r.data[i].smeId == Some(umkmId))
      && exists ids :: ScanOf(db.profiles, OfUmkm(umkmId), ids)
                    && (forall i :: 0 <= i < |ids| ==> db.profiles[ids[i]].image.Some?)
                    && r.data == ViewsOf(db.profiles, ids)
  {
    var gate := VerifyToken(header, accepted);
    if gate.Some? {
      return Respond(gate.value);
    }
    r := ListWhere(db, OfUmkm(umkmId));
    if r.Ok? {
      ghost var ids :| ScanOf(db.profiles, OfUmkm(umkmId), ids)
                 && (forall i :: 0 <= i < |ids| ==> db.profiles[ids[i]].image.Some?)
                 && r.data == ViewsOf(db.profiles, ids);
      ListedProfilesBelongTo(db.profiles, umkmId, ids);
    }
  }

  lemma ListedProfilesBelongTo(table: map<nat, ProfileRow>, umkmId: nat, ids: seq<nat>)
    requires ScanOf(table, OfUmkm(umkmId), ids)
    requires forall i :: 0 <= i < |ids| ==> ids[i] in table && table[ids[i]].image.Some?
    ensures forall i :: 0 <= i < |ids| ==> ViewsOf(table, ids)[i].smeId == Some(umkmId)
  {
    forall i | 0 <= i < |ids| ensures ViewsOf(table, ids)[i].smeId == Some(umkmId) {
      assert ids[i] in ids;
    }
  }

  /** GET /profil_pembatik/:id. */
  method GetProfile(db: Database, header: Option<string>, accepted: set<string>, id: nat)
    returns (r: Response<PembatikView>)
    requires db.Valid()
    ensures VerifyToken(header, accepted).Some? ==> r == Respond(VerifyToken(header, accepted).value)
    ensures r == Fail(404, "Profile Pembatik not found") <==> VerifyToken(header, accepted).None? && id !in db.profiles
    ensures r.Thrown? <==> VerifyToken(header, accepted).None? && id in db.profiles && db.profiles[id].image.None?
    ensures r.Ok? <==> VerifyToken(header, accepted).None? && id in db.profiles && db.profiles[id].image.Some?
    ensures r.Ok? ==>
      && id in db.profiles && db.profiles[id].image.Some?
      && r == Ok("success", ViewOf(id, db.profiles[id]))
  {
    var gate := VerifyToken(header, accepted);
    if gate.Some? {
      return Respond(gate.value);
    }
    if id !in db.profiles {
      return Fail(404, "Profile Pembatik not found");
    }
    if db.profiles[id].image.None? {
      return Thrown;
    }
    r := Ok("success", ViewOf(id, db.profiles[id]));
  }

  /** PUT /profil_pembatik/:id. Past the checks the reply is always a success;
      an existing row takes all five columns, the image becoming NULL when no
      file is sent. */
  method UpdateProfile(db: Database, header: Option<string>, accepted: set<string>, id: nat,
                       image: Option<Bytes>, f: PembatikForm, currentYear: int)
    returns (r: Response<()>)
    requires db.Valid()
    modifies db`profiles
    ensures db.Valid()
    ensures Guarded(VerifyToken(header, accepted), EditChecks(f, currentYear)).Some? ==>
      r == Respond(Guarded(VerifyToken(header, accepted), EditChecks(f, currentYear)).value)
    ensures r.Ok? <==> VerifyToken(header, accepted).None? && EditAccepted(f, currentYear)
    ensures !r.Ok? ==> unchanged(db)
    ensures r.Ok? ==>
      && EditAccepted(f, currentYear)
      && r == Ok("Success Edit Profile", ())
      && db.profiles == UpdateWhere(old(db.profiles), id, RowOf(f, image, currentYear))
  {
    EditChecksPass(f, currentYear);
    var halt := Guarded(VerifyToken(header, accepted), EditChecks(f, currentYear));
    if halt.Some? {
      return Respond(halt.value);
    }
    db.profiles := UpdateWhere(db.profiles, id, RowOf(f, image, currentYear));
    r := Ok("Success Edit Profile", ());
  }

  /** DELETE /profil_pembatik/:id. Success whether or not the row existed. */
  method DeleteProfile(db: Database, header: Option<string>, accepted: set<string>, id: nat)
    returns (r: Response<()>)
    requires db.Valid()
    modifies db`profiles
    ensures db.Valid()
    ensures VerifyToken(header, accepted).Some? ==> r == Respond(VerifyToken(header, accepted).value) && unchanged(db)
    ensures VerifyToken(header, accepted).None? ==>
      r == Ok("Success Delete Profile", ()) && db.profiles == old(db.profiles) - {id}
  {
    var gate := VerifyToken(header, accepted);
    if gate.Some? {
      return Respond(gate.value);
    }
    db.profiles := db.profiles - {id};
    r := Ok("Success Delete Profile", ());
  }

  /** An edit without a new image, accepted, leaves a NULL image behind, and the
      next read of that profile throws instead of replying. */
  method EditWithoutImageBreaksRead(db: Database, header: Option<string>, accepted: set<string>, id: nat,
                                    f: PembatikForm, currentYear: int)
    returns (edit: Response<()>, read: Response<PembatikView>)
    requires db.Valid() && id in db.profiles
    requires VerifyToken(header, accepted).None? && EditAccepted(f, currentYear)
    modifies db`profiles
    ensures edit == Ok("Success Edit Profile", ())
    ensures read == Thrown
  {
    edit := UpdateProfile(db, header, accepted, id, None, f, currentYear);
    read := GetProfile(db, header, accepted, id);
  }
}
