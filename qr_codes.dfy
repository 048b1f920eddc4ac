/** routes/qr_codes.js: one QR code per product, behind authenticateToken. The
    generate route encodes the product's page URL and upserts the code under
    the product id; the read returns the stored code. */
module QrCodes {
  import opened Text
  import opened Http
  import opened Tables

  /** `${req.protocol}://${req.get('host')}/produk/${productId}`. */
  function TargetUrl(protocol: string, host: string, productId: string): string {
    protocol + "://" + host + "/produk/" + productId
  }

  /** On one server (same protocol and host), distinct products get distinct
      URLs, and the product id is the text after the fixed prefix. */
  lemma TargetUrlInjective(protocol: string, host: string, a: string, b: string)
    requires TargetUrl(protocol, host, a) == TargetUrl(protocol, host, b)
    ensures a == b
  {
    var k := |protocol + "://" + host + "/produk/"|;
    assert a == TargetUrl(protocol, host, a)[k..];
    assert b == TargetUrl(protocol, host, b)[k..];
  }

  /** `INSERT ... ON DUPLICATE KEY UPDATE kode_qr = VALUES(kode_qr)` on the
      unique produk_id. */
  function Upsert(codes: map<string, string>, productId: string, code: string): (r: map<string, string>)
    ensures r.Keys == codes.Keys + {productId}
    ensures r[productId] == code
    ensures forall p :: p in codes && p != productId ==> r[p] == codes[p]
  {
    codes[productId := code]
  }

  /** Upserting twice under one product keeps one entry, holding the later code. */
  lemma UpsertTwiceKeepsLast(codes: map<string, string>, productId: string, first: string, second: string)
    ensures Upsert(Upsert(codes, productId, first), productId, second) == Upsert(codes, productId, second)
  {
  }

  /** Upserts under different products commute. */
  lemma UpsertsCommute(codes: map<string, string>, p: string, cp: string, q: string, cq: string)
    requires p != q
    ensures Upsert(Upsert(codes, p, cp), q, cq) == Upsert(Upsert(codes, q, cq), p, cp)
  {
  }

  /** POST /qr_codes/generate. `encode` is `QRCode.toDataURL`. */
  method Generate(db: Database, header: Option<string>, accepted: set<string>, productId: Option<string>,
                  protocol: string, host: string, encode: string -> string)
    returns (r: Response<string>)
    modifies db`qrCodes
    ensures AuthenticateToken(header, accepted).Some? ==>
      r == Respond(AuthenticateToken(header, accepted).value) && unchanged(db)
    ensures r == Fail(400, "Product ID is required") <==> AuthenticateToken(header, accepted).None? && !Truthy(productId)
    ensures r.Fail? ==> unchanged(db)
    ensures r.Ok? <==> AuthenticateToken(header, accepted).None? && Truthy(productId)
    ensures r.Ok? ==>
      && r == Ok("Success Generate QR Code", encode(TargetUrl(protocol, host, productId.value)))
      && db.qrCodes == Upsert(old(db.qrCodes), productId.value, r.data)
  {
    var gate := AuthenticateToken(header, accepted);
    if gate.Some? {
      return Respond(gate.value);
    }
    if !Truthy(productId) {
      return Fail(400, "Product ID is required");
    }
    var code := encode(TargetUrl(protocol, host, productId.value));
    db.qrCodes := Upsert(db.qrCodes, productId.value, code);
    r := Ok("Success Generate QR Code", code);
  }

  /** GET /qr_codes/:productId. */
  method GetCode(db: Database, header: Option<string>, accepted: set<string>, productId: string)
    returns (r: Response<string>)
    ensures AuthenticateToken(header, accepted).Some? ==> r == Respond(AuthenticateToken(header, accepted).value)
    ensures r == Fail(404, "QR Code not found") <==> AuthenticateToken(header, accepted).None? && productId !in db.qrCodes
    ensures r.Ok? <==> AuthenticateToken(header, accepted).None? && productId in db.qrCodes
    ensures r.Ok? ==> r == Ok("success", db.qrCodes[productId])
  {
    var gate := AuthenticateToken(header, accepted);
    if gate.Some? {
      return Respond(gate.value);
    }
    if productId !in db.qrCodes {
      return Fail(404, "QR Code not found");
    }
    r := Ok("success", db.qrCodes[productId]);
  }

  /** Generating for a product and then reading its code returns what the
      generate replied with, and generating again replaces it. */
  method GenerateThenRead(db: Database, header: Option<string>, accepted: set<string>, productId: string,
                          protocol: string, host: string, encode: string -> string)
    returns (generated: Response<string>, read: Response<string>)
    requires AuthenticateToken(header, accepted).None? && productId != []
    modifies db`qrCodes
    ensures generated.Ok? && read.Ok? && read.data == generated.data
    ensures read.data == encode(TargetUrl(protocol, host, productId))
    ensures db.qrCodes.Keys == old(db.qrCodes).Keys + {productId}
  {
    generated := Generate(db, header, accepted, Some(productId), protocol, host, encode);
    read := GetCode(db, header, accepted, productId);
  }
}
