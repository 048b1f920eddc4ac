/** routes/products.js: batik products. The routes sit behind authenticateToken
    (401 without a token, 403 when it does not verify), except the single read,
    which anyone may call. No body field is validated; the list of material ids
    is stored comma-joined, the price is always stored as 0, and neither the
    update nor the delete looks the row up first. */
module Products {
  import opened Text
  import opened Http
  import opened Tables

  /** How `materialId` arrives in a body: absent, one value (a string, which has
      no `join`), or a list of values. */
  datatype MaterialIdsField = Absent | Single(text: string) | Many(ids: seq<string>)

  /** The body of POST /products and PUT /products/:id. */
  datatype ProductForm = ProductForm(
    name: Option<string>, kind: Option<string>, description: Option<string>, smeId: Option<nat>,
    materialIds: MaterialIdsField, profileId: Option<nat>)

  /** The row a create or update writes; `photo` is the path multer stored the
      upload under. */
  function RowOf(f: ProductForm, photo: Option<string>): (row: ProductRow)
    requires f.materialIds.Many?
    ensures row.price == 0
  {
    ProductRow(f.name, f.kind, f.description, 0, photo, f.smeId, Join(f.materialIds.ids, ','), f.profileId)
  }

  // ---------------------------------------------------------------- replies

  /** One product as the reads reply with it. */
  datatype ProductView = ProductView(
    productId: string, name: Option<string>, kind: Option<string>, description: Option<string>,
    price: int, image: Option<string>, smeId: string)

  function ViewOf(id: nat, row: ProductRow): ProductView {
    ProductView(FormatId("product", id), row.name, row.kind, row.description, row.price, row.photo,
                "user-" + NullableDecimal(row.umkmId))
  }

  function ViewsOf(table: map<nat, ProductRow>, ids: seq<nat>): (vs: seq<ProductView>)
    requires forall i :: 0 <= i < |ids| ==> ids[i] in table
  {
    seq(|ids|, i requires 0 <= i < |ids| => ViewOf(ids[i], table[ids[i]]))
  }

  /** The material ids of the single read: one `material-<piece>` per
      comma-separated piece of the stored list, in order. */
  function MaterialEntries(stored: string): seq<string> {
    var pieces := Split(stored, ',');
    seq(|pieces|, i requires 0 <= i < |pieces| => "material-" + pieces[i])
  }

  /** The stored list reads back as the list that was sent, in the same order,
      provided it is not empty and no id contains a comma. */
  lemma MaterialIdsRoundTrip(ids: seq<string>)
    requires |ids| >= 1
    requires forall i :: 0 <= i < |ids| ==> ',' !in ids[i]
    ensures |MaterialEntries(Join(ids, ','))| == |ids|
    ensures forall i :: 0 <= i < |ids| ==> MaterialEntries(Join(ids, ','))[i] == "material-" + ids[i]
  {
    SplitAfterJoin(ids, ',');
  }

  /** An empty list is where the round trip breaks: it is stored as the empty
      string and reads back as one entry with no id. */
  lemma EmptyMaterialIdsReadBack()
    ensures MaterialEntries(Join([], ',')) == ["material-"]
  {
    SplitOfEmptyJoin(',');
    assert "material-" + [] == "material-";
  }

  /** A stored list carrying a comma inside one id reads back as more entries
      than were sent. */
  lemma CommaInsideIdSplits()
    ensures |MaterialEntries(Join(["1,2"], ','))| == 2
  {
    assert Join(["1,2"], ',') == Join(["1", "2"], ',');
    SplitAfterJoin(["1", "2"], ',');
  }

  /** `nama_pembatik` of the LEFT JOIN on Profil_Pembatik: NULL when the product
      names no profile or one that does not exist. */
  function ProfileName(profiles: map<nat, ProfileRow>, profileId: Option<nat>): Option<string> {
    if profileId.Some? && profileId.value in profiles then Some(profiles[profileId.value].name) else None
  }

  /** The single read's reply: the product, its material ids, and its profile. */
  datatype ProductDetail = ProductDetail(
    product: ProductView, materials: seq<string>, profileId: string, profileName: Option<string>)

  // ---------------------------------------------------------------- routes

  /** POST /products. Reading `join` of a material id that is not a list throws. */
  method CreateProduct(db: Database, header: Option<string>, accepted: set<string>,
                       photo: Option<string>, f: ProductForm)
    returns (r: Response<nat>)
    requires db.Valid()
    modifies db`products, db`nextProduct
    ensures db.Valid()
    ensures AuthenticateToken(header, accepted).Some? ==> r == Respond(AuthenticateToken(header, accepted).value)
    ensures r.Thrown? <==> AuthenticateToken(header, accepted).None? && !f.materialIds.Many?
    ensures r.Ok? <==> AuthenticateToken(header, accepted).None? && f.materialIds.Many?
    ensures !r.Ok? ==> unchanged(db)
    ensures r.Ok? ==>
      && f.materialIds.Many?
      && r == Ok("Success Add Product", old(db.nextProduct))
      && old(db.nextProduct) !in old(db.products)
      && db.products == old(db.products)[old(db.nextProduct) := RowOf(f, photo)]
      && db.products[old(db.nextProduct)].price == 0
      && db.nextProduct == old(db.nextProduct) + 1
  {
    var gate := AuthenticateToken(header, accepted);
    if gate.Some? {
      return Respond(gate.value);
    }
    if !f.materialIds.Many? {
      return Thrown;
    }
    var id := db.nextProduct;
    db.products := db.products[id := RowOf(f, photo)];
    db.nextProduct := id + 1;
    r := Ok("Success Add Product", id);
  }

  /** GET /products: every product, in key order. */
  method ReadAllProducts(db: Database, header: Option<string>, accepted: set<string>)
    returns (r: Response<seq<ProductView>>)
    requires db.Valid()
    ensures AuthenticateToken(header, accepted).Some? ==> r == Respond(AuthenticateToken(header, accepted).value)
    ensures AuthenticateToken(header, accepted).None? ==>
      && r.Ok? && r.message == "success"
      && exists ids :: ScanOf(db.products, AnyRow(), ids) && r.data == ViewsOf(db.products, ids)
  {
    var gate := AuthenticateToken(header, accepted);
    if gate.Some? {
      return Respond(gate.value);
    }
    var ids := SelectWhere(db.products, db.nextProduct, AnyRow());
    assert forall i :: 0 <= i < |ids| ==> ids[i] in ids;
    assert ScanOf(db.products, AnyRow(), ids);
    r := Ok("success", ViewsOf(db.products, ids));
  }

  function AnyRow(): ProductRow -> bool {
    (row: ProductRow) => true
  }

  function OfUmkm(umkmId: nat): ProductRow -> bool {
    (row: ProductRow) => row.umkmId == Some(umkmId)
  }

  /** GET /products/:id, with no token asked for. */
  method GetProduct(db: Database, id: nat) returns (r: Response<ProductDetail>)
    requires db.Valid()
    ensures r == Fail(404, "Product not found") <==> id !in db.products
    ensures r.Ok? <==> id in db.products
    ensures r.Ok? ==>
      && r.message == "success"
      && r.data.product == ViewOf(id, db.products[id])
      && r.data.materials == MaterialEntries(db.products[id].materialIds)
      && r.data.profileId == "profile-" + NullableDecimal(db.products[id].profileId)
      && r.data.profileName == ProfileName(db.profiles, db.products[id].profileId)
  {
    if id !in db.products {
      return Fail(404, "Product not found");
    }
    var row := db.products[id];
    r := Ok("success", ProductDetail(ViewOf(id, row), MaterialEntries(row.materialIds),
                                     "profile-" + NullableDecimal(row.profileId),
                                     ProfileName(db.profiles, row.profileId)));
  }

  /** PUT /products/:id. Past the token and the `join`, the reply is always a
      success; an existing row takes all eight columns, the price becoming 0 and
      the photo NULL when no file is sent. */
  method UpdateProduct(db: Database, header: Option<string>, accepted: set<string>, id: nat,
                       photo: Option<string>, f: ProductForm)
    returns (r: Response<()>)
    requires db.Valid()
    modifies db`products
    ensures db.Valid()
    ensures AuthenticateToken(header, accepted).Some? ==> r == Respond(AuthenticateToken(header, accepted).value)
    ensures r.Thrown? <==> AuthenticateToken(header, accepted).None? && !f.materialIds.Many?
    ensures r.Ok? <==> AuthenticateToken(header, accepted).None? && f.materialIds.Many?
    ensures !r.Ok? ==> unchanged(db)
    ensures r.Ok? ==>
      && f.materialIds.Many?
      && r == Ok("Success Update Product", ())
      && db.products == UpdateWhere(old(db.products), id, RowOf(f, photo))
  {
    var gate := AuthenticateToken(header, accepted);
    if gate.Some? {
      return Respond(gate.value);
    }
    if !f.materialIds.Many? {
      return Thrown;
    }
    db.products := UpdateWhere(db.products, id, RowOf(f, photo));
    r := Ok("Success Update Product", ());
  }

  /** DELETE /products/:id. Success whether or not the row existed. */
  method DeleteProduct(db: Database, header: Option<string>, accepted: set<string>, id: nat)
    returns (r: Response<()>)
    requires db.Valid()
    modifies db`products
    ensures db.Valid()
    ensures AuthenticateToken(header, accepted).Some? ==>
      r == Respond(AuthenticateToken(header, accepted).value) && unchanged(db)
    ensures AuthenticateToken(header, accepted).None? ==>
      r == Ok("Success Delete Product", ()) && db.products == old(db.products) - {id}
  {
    var gate := AuthenticateToken(header, accepted);
    if gate.Some? {
      return Respond(gate.value);
    }
    db.products := db.products - {id};
    r := Ok("Success Delete Product", ());
  }

  /** GET /products/umkm/:umkm_id: exactly the products of that UMKM, in key
      order, or 404 when it has none. */
  method ListByUmkm(db: Database, header: Option<string>, accepted: set<string>, umkmId: nat)
    returns (r: Response<seq<ProductView>>)
    requires db.Valid()
    ensures AuthenticateToken(header, accepted).Some? ==> r == Respond(AuthenticateToken(header, accepted).value)
    ensures r == Fail(404, "Products not found") <==>
      AuthenticateToken(header, accepted).None? && forall k :: k in db.products ==> db.products[k].umkmId != Some(umkmId)
    ensures r.Ok? <==>
      AuthenticateToken(header, accepted).None? && exists k :: k in db.products && db.products[k].umkmId == Some(umkmId)
    ensures r.Ok? ==>
      && r.message == "success" && r.data != []
      && (forall i :: 0 <= i < |r.data| ==> r.data[i].smeId == FormatId("user", umkmId))
      && exists ids :: ScanOf(db.products, OfUmkm(umkmId), ids) && r.data == ViewsOf(db.products, ids)
  {
    var gate := AuthenticateToken(header, accepted);
    if gate.Some? {
      return Respond(gate.value);
    }
    var ids := SelectWhere(db.products, db.nextProduct, OfUmkm(umkmId));
    if ids == [] {
      return Fail(404, "Products not found");
    }
    assert ids[0] in ids;
    assert forall i :: 0 <= i < |ids| ==> ids[i] in ids;
    assert ScanOf(db.products, OfUmkm(umkmId), ids);
    ListedProductsBelongTo(db.products, umkmId, ids);
    r := Ok("success", ViewsOf(db.products, ids));
  }

  /** Every entry listed for a UMKM carries `user-<that id>`. */
  lemma ListedProductsBelongTo(table: map<nat, ProductRow>, umkmId: nat, ids: seq<nat>)
    requires ScanOf(table, OfUmkm(umkmId), ids)
    ensures forall i :: 0 <= i < |ids| ==> ViewsOf(table, ids)[i].smeId == FormatId("user", umkmId)
  {
    forall i | 0 <= i < |ids| ensures ViewsOf(table, ids)[i].smeId == FormatId("user", umkmId) {
      assert ids[i] in ids;
    }
  }

  /** A product created with a non-empty list of comma-free material ids reads
      back with those ids, in that order, and with price 0. */
  method CreateThenRead(db: Database, header: Option<string>, accepted: set<string>,
                        photo: Option<string>, f: ProductForm)
    returns (created: Response<nat>, read: Response<ProductDetail>)
    requires db.Valid()
    requires AuthenticateToken(header, accepted).None?
    requires f.materialIds.Many? && |f.materialIds.ids| >= 1
    requires forall i :: 0 <= i < |f.materialIds.ids| ==> ',' !in f.materialIds.ids[i]
    modifies db`products, db`nextProduct
    ensures created.Ok? && read.Ok?
    ensures |read.data.materials| == |f.materialIds.ids|
    ensures forall i :: 0 <= i < |f.materialIds.ids| ==> read.data.materials[i] == "material-" + f.materialIds.ids[i]
    ensures read.data.product.price == 0
  {
    created := CreateProduct(db, header, accepted, photo, f);
    read := GetProduct(db, created.data);
    MaterialIdsRoundTrip(f.materialIds.ids);
  }
}
