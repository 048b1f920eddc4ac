/** The MySQL schema the routes read and write: one record type per table, a
    `Database` object holding every table as a map from primary key to row with
    its AUTO_INCREMENT counter, and the primary-key scan behind every
    `SELECT ... WHERE` the routes run. */
module Tables {
  import opened Text

  /** An uploaded file's bytes (a multer memory-storage buffer). */
  type Bytes = seq<bv8>

  /** A multipart file as multer hands it over: its declared type and its bytes. */
  datatype Upload = Upload(mimetype: string, buffer: Bytes)

  /** Auth.user_type: the only two values any route writes. */
  datatype Role = SupplierRole | UmkmRole

  function RoleName(role: Role): string {
    match role
    case SupplierRole => "supplier"
    case UmkmRole => "umkm"
  }

  /** Supplier (nama_supplier, deskripsi_supplier, alamat_supplier, kontak_supplier). */
  datatype SupplierRow = SupplierRow(name: string, description: string, address: string, contact: string)

  /** UMKM (nama_umkm, deskripsi_umkm, alamat_umkm, kontak_umkm). */
  datatype UmkmRow = UmkmRow(name: string, description: string, address: string, contact: string)

  /** Auth (email, password as a bcrypt hash, user_type, user_id). */
  datatype AuthRow = AuthRow(email: string, passwordHash: string, userType: Role, userId: nat)

  /** Barang_Mentah, a raw material (nama, jenis, deskripsi, supplier_id, image, price). */
  datatype MaterialRow = MaterialRow(
    name: string, kind: string, description: string, supplierId: nat, image: Option<Bytes>, price: real)

  /** Profil_Pembatik, a craftsperson profile (nama_pembatik, image, tanggal_mulai,
      deskripsi_pembatik, umkm_id). */
  datatype ProfileRow = ProfileRow(
    name: string, image: Option<Bytes>, startedYear: int, description: Option<string>, umkmId: Option<nat>)

  /** Produk_Batik (nama_produk, jenis_produk, deskripsi_produk, harga_produk,
      foto_produk, umkm_id, barang_mentah_id as a comma-joined list, pembatik_id). */
  datatype ProductRow = ProductRow(
    name: Option<string>, kind: Option<string>, description: Option<string>, price: int,
    photo: Option<string>, umkmId: Option<nat>, materialIds: string, profileId: Option<nat>)

  /** Every key of an AUTO_INCREMENT table lies in [1, next). */
  predicate IdsBelow<T>(table: map<nat, T>, next: nat) {
    1 <= next && forall id :: id in table ==> 1 <= id < next
  }

  class Database {
    var suppliers: map<nat, SupplierRow>
    var nextSupplier: nat
    var umkms: map<nat, UmkmRow>
    var nextUmkm: nat
    var auths: map<nat, AuthRow>
    var nextAuth: nat
    var materials: map<nat, MaterialRow>
    var nextMaterial: nat
    var profiles: map<nat, ProfileRow>
    var nextProfile: nat
    var products: map<nat, ProductRow>
    var nextProduct: nat
    /** QR_Code, keyed by its unique produk_id column. */
    var qrCodes: map<string, string>

    ghost predicate Valid()
      reads this
    {
      && IdsBelow(suppliers, nextSupplier)
      && IdsBelow(umkms, nextUmkm)
      && IdsBelow(auths, nextAuth)
      && IdsBelow(materials, nextMaterial)
      && IdsBelow(profiles, nextProfile)
      && IdsBelow(products, nextProduct)
    }

    /** Empty tables, every counter at 1. */
    constructor ()
      ensures Valid()
      ensures suppliers == map[] && umkms == map[] && auths == map[] && materials == map[]
      ensures profiles == map[] && products == map[] && qrCodes == map[]
    {
      suppliers, umkms, auths, materials, profiles, products, qrCodes :=
        map[], map[], map[], map[], map[], map[], map[];
      nextSupplier, nextUmkm, nextAuth, nextMaterial, nextProfile, nextProduct := 1, 1, 1, 1, 1, 1;
    }
  }

  predicate Ascending(ids: seq<nat>) {
    forall i, j :: 0 <= i < j < |ids| ==> ids[i] < ids[j]
  }

  /** `SELECT * FROM <table> WHERE <keep>`: the keys of the rows satisfying `keep`,
      in primary-key order, the order in which an InnoDB table scan returns them. */
  method SelectWhere<T>(table: map<nat, T>, next: nat, keep: T -> bool) returns (ids: seq<nat>)
    requires IdsBelow(table, next)
    ensures Ascending(ids)
    ensures forall id :: id in ids <==> id in table && keep(table[id])
  {
    ids := [];
    var id := 1;
    while id < next
      invariant 1 <= id <= next
      invariant Ascending(ids)
      invariant forall i :: 0 <= i < |ids| ==> ids[i] < id
      invariant forall k :: k in ids <==> k in table && keep(table[k]) && k < id
    {
      if id in table && keep(table[id]) {
        ids := ids + [id];
      }
      id := id + 1;
    }
  }

  /** The keys a `SELECT ... WHERE <keep>` returns, in the order it returns them. */
  ghost predicate ScanOf<T>(table: map<nat, T>, keep: T -> bool, ids: seq<nat>) {
    Ascending(ids) && forall id :: id in ids <==> id in table && keep(table[id])
  }

  lemma HeadIsLeast(a: seq<nat>, x: nat)
    requires Ascending(a) && x in a
    ensures a[0] <= x
  {
    var j :| 0 <= j < |a| && a[j] == x;
    assert j == 0 || a[0] < a[j];
  }

  /** Two ascending lists with the same members are the same list: a scan's
      result, and so every list reply built from it, is fully determined. */
  lemma {:induction false} AscendingUnique(a: seq<nat>, b: seq<nat>)
    requires Ascending(a) && Ascending(b)
    requires forall x :: x in a <==> x in b
    ensures a == b
  {
    if a != [] {
      assert a[0] in b;
    }
    if b != [] {
      assert b[0] in a;
    }
    if a != [] && b != [] {
      HeadIsLeast(a, b[0]);
      HeadIsLeast(b, a[0]);
      assert a == [a[0]] + a[1..] && b == [b[0]] + b[1..];
      forall x ensures x in a[1..] ==> x in b[1..] {
        if x in a[1..] {
          var i :| 0 <= i < |a| - 1 && a[1..][i] == x;
          assert a[0] < a[i + 1] && a[i + 1] == x && x in a && x in b;
          var j :| 0 <= j < |b| && b[j] == x;
          assert b[1..][j - 1] == x;
        }
      }
      forall x ensures x in b[1..] ==> x in a[1..] {
        if x in b[1..] {
          var i :| 0 <= i < |b| - 1 && b[1..][i] == x;
          assert b[0] < b[i + 1] && b[i + 1] == x && x in b && x in a;
          var j :| 0 <= j < |a| && a[j] == x;
          assert a[1..][j - 1] == x;
        }
      }
      AscendingUnique(a[1..], b[1..]);
    }
  }

  /** `UPDATE <table> SET ... WHERE <key> = ?`: the row is replaced when it
      exists, and nothing happens otherwise. */
  function UpdateWhere<T>(table: map<nat, T>, id: nat, row: T): (r: map<nat, T>)
    ensures r.Keys == table.Keys
    ensures id in table ==> r[id] == row
    ensures forall k :: k in table && k != id ==> r[k] == table[k]
  {
    if id in table then table[id := row] else table
  }

  /** `WHERE user_id = ? AND user_type = ...` on Auth. */
  function AccountOf(userId: nat, role: Role): AuthRow -> bool {
    (row: AuthRow) => row.userId == userId && row.userType == role
  }

  /** `UPDATE Auth SET email = ? WHERE user_id = ? AND user_type = ...`. */
  function RewriteEmail(auths: map<nat, AuthRow>, userId: nat, role: Role, email: string): map<nat, AuthRow> {
    map k | k in auths :: if AccountOf(userId, role)(auths[k]) then auths[k].(email := email) else auths[k]
  }

  /** `after` is `before` with the email of every Auth row of that account set,
      and no other row touched. */
  ghost predicate EmailRewritten(before: map<nat, AuthRow>, after: map<nat, AuthRow>, userId: nat, role: Role, email: string) {
    && after.Keys == before.Keys
    && (forall k :: k in before && AccountOf(userId, role)(before[k]) ==> after[k] == before[k].(email := email))
    && (forall k :: k in before && !AccountOf(userId, role)(before[k]) ==> after[k] == before[k])
  }

  lemma RewriteEmailSpec(auths: map<nat, AuthRow>, userId: nat, role: Role, email: string)
    ensures EmailRewritten(auths, RewriteEmail(auths, userId, role, email), userId, role, email)
  {
  }

  /** `results[0]` of a scan: the smallest key whose row satisfies `keep`. */
  ghost predicate FirstWhere<T>(table: map<nat, T>, keep: T -> bool, id: nat) {
    && id in table && keep(table[id])
    && forall k :: k in table && keep(table[k]) ==> id <= k
  }

  /** The first element of an ascending scan is the smallest matching key. */
  lemma ScanHeadIsFirst<T>(table: map<nat, T>, keep: T -> bool, ids: seq<nat>)
    requires Ascending(ids) && ids != []
    requires forall id :: id in ids <==> id in table && keep(table[id])
    ensures FirstWhere(table, keep, ids[0])
  {
    forall k | k in table && keep(table[k]) ensures ids[0] <= k {
      var j :| 0 <= j < |ids| && ids[j] == k;
      assert j == 0 || ids[0] < ids[j];
    }
  }
}
