/** routes/barang_mentah.js: raw materials offered by suppliers. Every route is
    behind verifyToken; create and update also go through an upload filter that
    admits JPEG and PNG images only, then the required-fields and price checks,
    then the supplier lookup. */
module Materials {
  import opened Text
  import opened Http
  import opened Tables

  /** The `fileFilter` of the upload middleware. */
  predicate AcceptsImage(u: Upload) {
    u.mimetype == "image/jpeg" || u.mimetype == "image/png"
  }

  /** A request either carries no file or one the filter admits. A refused file
      is passed to Express's error handler, so the handler never runs. */
  predicate UploadAllowed(file: Option<Upload>) {
    file.None? || AcceptsImage(file.value)
  }

  /** The price field as `isNaN` and `<=` read it. */
  datatype Numeric = NotANumber | Number(value: real)

  /** The body of POST /barang_mentah and PUT /barang_mentah/:id. */
  datatype MaterialForm = MaterialForm(
    name: Option<string>, kind: Option<string>, description: Option<string>,
    supplierId: Option<nat>, price: Option<Numeric>)

  predicate AllPresent(f: MaterialForm) {
    Truthy(f.name) && Truthy(f.kind) && Truthy(f.description) && f.supplierId.Some? && f.price.Some?
  }

  /** `!(isNaN(price) || price <= 0)`. */
  predicate PricePositive(price: Option<Numeric>) {
    price.Some? && price.value.Number? && price.value.value > 0.0
  }

  /** The upload filter and the handler's two checks, in the order they run. */
  function MaterialChecks(file: Option<Upload>, f: MaterialForm): seq<Step> {
    [ Step(UploadAllowed(file), Throw),
      Step(AllPresent(f), Reject(400, "All fields are required")),
      Step(PricePositive(f.price), Reject(400, "Price must be a positive number")) ]
  }

  predicate MaterialAccepted(file: Option<Upload>, f: MaterialForm) {
    UploadAllowed(file) && AllPresent(f) && PricePositive(f.price)
  }

  /** A request reaches the supplier lookup exactly when its file (if any) is an
      image, every field is given and the price is a positive number; a missing
      field is reported before a bad price, even when the price is also bad. */
  lemma MaterialChecksPass(file: Option<Upload>, f: MaterialForm)
    ensures FirstHalt(MaterialChecks(file, f)) == None <==> MaterialAccepted(file, f)
    ensures UploadAllowed(file) && !AllPresent(f) ==>
      FirstHalt(MaterialChecks(file, f)) == Some(Reject(400, "All fields are required"))
    ensures UploadAllowed(file) && AllPresent(f) && !PricePositive(f.price) ==>
      FirstHalt(MaterialChecks(file, f)) == Some(Reject(400, "Price must be a positive number"))
    ensures !UploadAllowed(file) ==> FirstHalt(MaterialChecks(file, f)) == Some(Throw)
  {
    var steps := MaterialChecks(file, f);
    FirstHaltIsEarliestFailure(steps);
    if FirstHalt(steps) == None {
      assert steps[0].passes && steps[1].passes && steps[2].passes;
    }
    if UploadAllowed(file) && !AllPresent(f) {
      assert EarliestFailure(steps, 1);
    }
    if UploadAllowed(file) && AllPresent(f) && !PricePositive(f.price) {
      assert EarliestFailure(steps, 2);
    }
  }

  /** A zero price is present (the text "0" is a non-empty string) but not positive. */
  lemma ZeroPriceIsRefused(f: MaterialForm)
    requires Truthy(f.name) && Truthy(f.kind) && Truthy(f.description) && f.supplierId.Some?
    requires f.price == Some(Number(0.0))
    ensures FirstHalt(MaterialChecks(None, f)) == Some(Reject(400, "Price must be a positive number"))
  {
    MaterialChecksPass(None, f);
  }

  /** One entry of a material reply. The image is the stored bytes (the reads
      send them base64-encoded). */
  datatype MaterialView = MaterialView(
    materialId: string, name: string, kind: string, description: string,
    image: Option<Bytes>, price: real, supplierId: string)

  /** The formatting every read applies to a row: `material-<id>` and `user-<supplier_id>`. */
  function ViewOf(id: nat, row: MaterialRow): MaterialView {
    MaterialView(FormatId("material", id), row.name, row.kind, row.description, row.image, row.price,
                 FormatId("user", row.supplierId))
  }

  /** Distinct rows get distinct material ids in a reply. */
  lemma ViewIdsDistinct(a: nat, ra: MaterialRow, b: nat, rb: MaterialRow)
    requires a != b
    ensures ViewOf(a, ra).materialId != ViewOf(b, rb).materialId
  {
    if ViewOf(a, ra).materialId == ViewOf(b, rb).materialId {
      FormatIdInjective("material", a, b);
    }
  }

  /** `results.map(...)` over the rows a scan returned. */
  function ViewsOf(table: map<nat, MaterialRow>, ids: seq<nat>): (vs: seq<MaterialView>)
    requires forall i :: 0 <= i < |ids| ==> ids[i] in table
  {
    seq(|ids|, i requires 0 <= i < |ids| => ViewOf(ids[i], table[ids[i]]))
  }

  /** The row a create or update writes. */
  function RowOf(f: MaterialForm, file: Option<Upload>): MaterialRow
    requires AllPresent(f) && PricePositive(f.price)
  {
    MaterialRow(f.name.value, f.kind.value, f.description.value, f.supplierId.value,
                if file.Some? then Some(file.value.buffer) else None, f.price.value.value)
  }

  /** POST /barang_mentah. The reply echoes the new row as the reads would show it. */
  method CreateMaterial(db: Database, header: Option<string>, accepted: set<string>,
                        file: Option<Upload>, f: MaterialForm)
    returns (r: Response<seq<MaterialView>>)
    requires db.Valid()
    modifies db`materials, db`nextMaterial
    ensures db.Valid()
    ensures Guarded(VerifyToken(header, accepted), MaterialChecks(file, f)).Some? ==>
      r == Respond(Guarded(VerifyToken(header, accepted), MaterialChecks(file, f)).value)
    ensures r == Fail(404, "Supplier not found") <==>
      VerifyToken(header, accepted).None? && MaterialAccepted(file, f) && f.supplierId.value !in db.suppliers
    ensures r.Ok? <==> VerifyToken(header, accepted).None? && MaterialAccepted(file, f) && f.supplierId.value in db.suppliers
    ensures !r.Ok? ==> unchanged(db)
    ensures r.Ok? ==>
      && old(db.nextMaterial) !in old(db.materials)
      && db.materials == old(db.materials)[old(db.nextMaterial) := RowOf(f, file)]
      && db.nextMaterial == old(db.nextMaterial) + 1
      && r == Ok("success", [ViewOf(old(db.nextMaterial), RowOf(f, file))])
  {
    MaterialChecksPass(file, f);
    var halt := Guarded(VerifyToken(header, accepted), MaterialChecks(file, f));
    if halt.Some? {
      return Respond(halt.value);
    }
    if f.supplierId.value !in db.suppliers {
      return Fail(404, "Supplier not found");
    }
    var id := db.nextMaterial;
    var row := RowOf(f, file);
    db.materials := db.materials[id := row];
    db.nextMaterial := id + 1;
    r := Ok("success", [ViewOf(id, row)]);
  }

  /** The rows of a scan, formatted: the reply of both list routes. */
  method ListWhere(db: Database, keep: MaterialRow -> bool) returns (views: seq<MaterialView>)
    requires db.Valid()
    ensures exists ids :: ScanOf(db.materials, keep, ids) && views == ViewsOf(db.materials, ids)
  {
    var ids := SelectWhere(db.materials, db.nextMaterial, keep);
    assert forall i :: 0 <= i < |ids| ==> ids[i] in ids;
    views := ViewsOf(db.materials, ids);
    assert ScanOf(db.materials, keep, ids);
  }

  function AnyRow(): MaterialRow -> bool {
    (row: MaterialRow) => true
  }

  function OfSupplier(supplierId: nat): MaterialRow -> bool {
    (row: MaterialRow) => row.supplierId == supplierId
  }

  /** GET /barang_mentah: every material, in key order. */
  method ReadAllMaterials(db: Database, header: Option<string>, accepted: set<string>)
    returns (r: Response<seq<MaterialView>>)
    requires db.Valid()
    ensures VerifyToken(header, accepted).Some? ==> r == Respond(VerifyToken(header, accepted).value)
    ensures VerifyToken(header, accepted).None? ==>
      && r.Ok? && r.message == "success"
      && exists ids :: ScanOf(db.materials, AnyRow(), ids) && r.data == ViewsOf(db.materials, ids)
  {
    var gate := VerifyToken(header, accepted);
    if gate.Some? {
      return Respond(gate.value);
    }
    var views := ListWhere(db, AnyRow());
    r := Ok("success", views);
  }

  /** GET /barang_mentah/supplier/:supplier_id: exactly the materials of that
      supplier, in key order. An unknown supplier gives an empty list, not a 404. */
  method ListBySupplier(db: Database, header: Option<string>, accepted: set<string>, supplierId: nat)
    returns (r: Response<seq<MaterialView>>)
    requires db.Valid()
    ensures VerifyToken(header, accepted).Some? ==> r == Respond(VerifyToken(header, accepted).value)
    ensures VerifyToken(header, accepted).None? ==>
      && r.Ok? && r.message == "success"
      && exists ids :: ScanOf(db.materials, OfSupplier(supplierId), ids) && r.data == ViewsOf(db.materials, ids)
    ensures r.Ok? ==> forall i :: 0 <= i < |r.data| ==> r.data[i].supplierId == FormatId("user", supplierId)
  {
    var gate := VerifyToken(header, accepted);
    if gate.Some? {
      return Respond(gate.value);
    }
    var views := ListWhere(db, OfSupplier(supplierId));
    r := Ok("success", views);
  }

  /** GET /barang_mentah/:id. */
  method GetMaterial(db: Database, header: Option<string>, accepted: set<string>, id: nat)
    returns (r: Response<MaterialView>)
    requires db.Valid()
    ensures VerifyToken(header, accepted).Some? ==> r == Respond(VerifyToken(header, accepted).value)
    ensures r == Fail(404, "Material not found") <==> VerifyToken(header, accepted).None? && id !in db.materials
    ensures r.Ok? <==> VerifyToken(header, accepted).None? && id in db.materials
    ensures r.Ok? ==> r == Ok("success", ViewOf(id, db.materials[id]))
  {
    var gate := VerifyToken(header, accepted);
    if gate.Some? {
      return Respond(gate.value);
    }
    if id !in db.materials {
      return Fail(404, "Material not found");
    }
    r := Ok("success", ViewOf(id, db.materials[id]));
  }

  /** PUT /barang_mentah/:id. The supplier is looked up before the material, and
      all six columns are overwritten; with no file the image becomes NULL. */
  method UpdateMaterial(db: Database, header: Option<string>, accepted: set<string>, id: nat,
                        file: Option<Upload>, f: MaterialForm)
    returns (r: Response<()>)
    requires db.Valid()
    modifies db`materials
    ensures db.Valid()
    ensures Guarded(VerifyToken(header, accepted), MaterialChecks(file, f)).Some? ==>
      r == Respond(Guarded(VerifyToken(header, accepted), MaterialChecks(file, f)).value)
    ensures r == Fail(404, "Supplier not found") <==>
      VerifyToken(header, accepted).None? && MaterialAccepted(file, f) && f.supplierId.value !in db.suppliers
    ensures r == Fail(404, "Material not found") <==>
      && VerifyToken(header, accepted).None? && MaterialAccepted(file, f) && f.supplierId.value in db.suppliers
      && id !in old(db.materials)
    ensures r.Ok? <==>
      && VerifyToken(header, accepted).None? && MaterialAccepted(file, f) && f.supplierId.value in db.suppliers
      && id in old(db.materials)
    ensures !r.Ok? ==> unchanged(db)
    ensures r.Ok? ==>
      && r.message == "Success Update Material"
      && MaterialAccepted(file, f) && id in old(db.materials)
      && db.materials == old(db.materials)[id := RowOf(f, file)]
  {
    MaterialChecksPass(file, f);
    var halt := Guarded(VerifyToken(header, accepted), MaterialChecks(file, f));
    if halt.Some? {
      return Respond(halt.value);
    }
    if f.supplierId.value !in db.suppliers {
      return Fail(404, "Supplier not found");
    }
    if id !in db.materials {
      return Fail(404, "Material not found");
    }
    db.materials := db.materials[id := RowOf(f, file)];
    r := Ok("Success Update Material", ());
  }

  /** DELETE /barang_mentah/:id. */
  method DeleteMaterial(db: Database, header: Option<string>, accepted: set<string>, id: nat)
    returns (r: Response<()>)
    requires db.Valid()
    modifies db`materials
    ensures db.Valid()
    ensures VerifyToken(header, accepted).Some? ==> r == Respond(VerifyToken(header, accepted).value)
    ensures r == Fail(404, "Material not found") <==> VerifyToken(header, accepted).None? && id !in old(db.materials)
    ensures r.Ok? <==> VerifyToken(header, accepted).None? && id in old(db.materials)
    ensures !r.Ok? ==> unchanged(db)
    ensures r.Ok? ==> r.message == "Success Delete Material" && db.materials == old(db.materials) - {id}
  {
    var gate := VerifyToken(header, accepted);
    if gate.Some? {
      return Respond(gate.value);
    }
    if id !in db.materials {
      return Fail(404, "Material not found");
    }
    db.materials := db.materials - {id};
    r := Ok("Success Delete Material", ());
  }
}
